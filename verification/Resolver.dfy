// The statements of Resolve: fields are overwritten in order and problems appended
// to a growing list, proved to give the outcome defined in Resolve.
module Resolver {
  import opened Strings
  import opened Paths
  import opened Schema
  import Expand
  import opened OutputPaths
  import opened Resolve

  /** The `exp` closure: one field, and the problems it adds. */
  method ExpandField(field: Field, raw: string, env: Env) returns (out: string, errs: seq<Problem>)
    ensures out == Expanded(raw, env) && errs == FieldProblems(field, raw, env)
  {
    hide Guarded, Expand.Tokenise, Expand.Substitute, Expand.Missing;
    var missing;
    out, missing := Expand.Expand(raw, Guarded(env));
    errs := [];
    ghost var all := VariableProblems(field, missing);
    for i := 0 to |missing|
      invariant errs == all[..i]
    {
      PrefixGrows(all, i);
      if missing[i] == PROTECTED {
        errs := errs + [ProtectedVariable(field)];
      } else {
        errs := errs + [UnresolvedVariable(missing[i], field)];
      }
    }
    assert all[..|missing|] == all;
  }

  method ResolveName(raw: string, env: Env) returns (name: string, errs: seq<Problem>)
    ensures name == Expanded(raw, env) && errs == NameProblems(raw, env)
  {
    hide Expanded, Unresolved, FieldProblems;
    name, errs := ExpandField(NameField, raw, env);
    if name == "" {
      errs := errs + [Required(NameField)];
    }
  }

  method ResolveOidc(oidc: OIDC, env: Env) returns (o: OIDC, errs: seq<Problem>)
    ensures o == ExpandOidc(oidc, env) && errs == OidcVariables(oidc, env)
  {
    hide Expanded, Unresolved, FieldProblems;
    var out, e;
    o := oidc;
    out, errs := ExpandField(Issuer, oidc.issuer, env);
    o := o.(issuer := out);
    out, e := ExpandField(ClientId, oidc.clientId, env);
    o, errs := o.(clientId := out), errs + e;
    out, e := ExpandField(Audience, oidc.audience, env);
    o, errs := o.(audience := out), errs + e;
  }

  method CheckOidc(oidc: Option<OIDC>) returns (errs: seq<Problem>)
    ensures errs == if oidc.Some? then OidcProblems(oidc.value) else [OidcRequired]
  {
    errs := [];
    if oidc.None? {
      errs := errs + [OidcRequired];
    } else {
      if oidc.value.issuer == "" { errs := errs + [Required(Issuer)]; }
      if oidc.value.clientId == "" { errs := errs + [Required(ClientId)]; }
      if oidc.value.audience == "" { errs := errs + [Required(Audience)]; }
    }
  }

  method ResolveRegistration(r: Registration, env: Env) returns (reg: Registration, errs: seq<Problem>)
    ensures reg == ExpandRegistration(r, env) && errs == RegistrationProblems(r, env)
  {
    hide Expanded, Unresolved, FieldProblems;
    var out, e;
    reg := r;
    out, errs := ExpandField(Endpoint, r.endpoint, env);
    reg := reg.(endpoint := out);
    if r.oidc.Some? {
      var o;
      o, e := ResolveOidc(r.oidc.value, env);
      reg, errs := reg.(oidc := Some(o)), errs + e;
    }
    if reg.endpoint == "" {
      errs := errs + [Required(Endpoint)];
    }
    e := CheckOidc(reg.oidc);
    errs := errs + e;
  }

  method ResolveTarget(t: Target, env: Env) returns (target: Target, errs: seq<Problem>)
    ensures target == ExpandTarget(t, env) && errs == TargetProblems(t, env)
  {
    hide Expanded, Unresolved, FieldProblems;
    var out, e;
    target := t;
    out, errs := ExpandField(Gateway, t.gateway, env);
    target := target.(gateway := out);
    out, e := ExpandField(Workspace, t.workspace, env);
    target, errs := target.(workspace := out), errs + e;
    if t.registration.Some? {
      var reg;
      reg, e := ResolveRegistration(t.registration.value, env);
      target, errs := target.(registration := Some(reg)), errs + e;
    }
  }

  method ResolveInference(inf: Inference, env: Env, parse: string -> Option<int>)
    returns (r: Inference, errs: seq<Problem>)
    ensures r == ExpandInference(inf, env) && errs == InferenceProblems(inf, env, parse)
  {
    hide Expanded, Unresolved, FieldProblems, IsRouteName, InferenceChecks;
    var out, e;
    r := inf;
    out, errs := ExpandField(Route, inf.route, env);
    r := r.(route := out);
    if r.route != "" && !IsRouteName(r.route) {
      errs := errs + [MalformedRoute(r.route)];
    }
    var variables;
    out, variables := ExpandField(InferenceProvider, inf.provider, env);
    r := r.(provider := out);
    out, e := ExpandField(Model, inf.model, env);
    r, variables := r.(model := out), variables + e;
    out, e := ExpandField(Timeout, inf.timeout, env);
    r, variables := r.(timeout := out), variables + e;
    errs := errs + variables;
    e := CheckInference(r, parse);
    errs := errs + e;
  }

  method CheckInference(r: Inference, parse: string -> Option<int>) returns (errs: seq<Problem>)
    ensures errs == InferenceChecks(r, parse)
  {
    hide IsRouteName;
    errs := [];
    var secs := TimeoutSecs(r.timeout, parse);
    if secs.Err? {
      errs := errs + [BadTimeout(secs.error)];
    }
    if r.route != "" || r.provider != "" || r.model != "" || r.timeout != "" {
      if r.provider == "" {
        errs := errs + [RequiredByInference(InferenceProvider)];
      }
      if r.model == "" {
        errs := errs + [RequiredByInference(Model)];
      }
    }
  }

  method ResolveProviders(raw: seq<string>, env: Env) returns (names: seq<string>, errs: seq<Problem>)
    ensures names == ExpandAll(raw, env) && errs == ProviderProblems(raw, env, |raw|)
  {
    hide Expanded, Unresolved, FieldProblems;
    names, errs := [], [];
    for i := 0 to |raw|
      invariant names == ExpandAll(raw, env)[..i]
      invariant errs == ProviderProblems(raw, env, i)
    {
      var name, e := ExpandField(ProviderAt(i), raw[i], env);
      assert ExpandAll(raw, env)[i] == name;
      PrefixGrows(ExpandAll(raw, env), i);
      names, errs := names + [name], errs + e;
      if name == "" {
        errs := errs + [Required(ProviderAt(i))];
      }
    }
  }

  function ExpandKeys(raw: map<string, string>, keys: seq<string>, env: Env): map<string, string> {
    map key | key in raw && key in keys :: Expanded(raw[key], env)
  }

  lemma ExpandKeysStep(raw: map<string, string>, keys: seq<string>, env: Env, i: nat)
    requires i < |keys| && keys[i] in raw
    ensures ExpandKeys(raw, keys[..i + 1], env) ==
      ExpandKeys(raw, keys[..i], env)[keys[i] := Expanded(raw[keys[i]], env)]
  {
    assert keys[..i + 1] == keys[..i] + [keys[i]];
  }

  lemma AllKeysExpanded(raw: map<string, string>, keys: seq<string>, env: Env)
    requires Enumerates(keys, raw)
    ensures ExpandKeys(raw, keys[..|keys|], env) == ExpandMap(raw, env)
  {
    assert keys[..|keys|] == keys;
  }

  method ResolveEnv(raw: map<string, string>, keys: seq<string>, env: Env)
    returns (values: map<string, string>, errs: seq<Problem>)
    requires Enumerates(keys, raw)
    ensures values == ExpandMap(raw, env) && errs == EnvProblems(raw, keys, env, |keys|)
  {
    hide Expanded, Unresolved, FieldProblems;
    values, errs := map[], [];
    for i := 0 to |keys|
      invariant values == ExpandKeys(raw, keys[..i], env)
      invariant errs == EnvProblems(raw, keys, env, i)
    {
      var out, e := ExpandField(EnvOf(keys[i]), raw[keys[i]], env);
      ExpandKeysStep(raw, keys, env, i);
      values, errs := values[keys[i] := out], errs + e;
    }
    AllKeysExpanded(raw, keys, env);
  }

  method ResolvePolicy(policy: Option<PolicyRef>, env: Env) returns (r: Option<PolicyRef>, errs: seq<Problem>)
    ensures r == if policy.Some? then Some(PolicyRef(Expanded(policy.value.file, env))) else None
    ensures errs == if policy.Some? then FieldProblems(PolicyFile, policy.value.file, env) else []
  {
    hide Expanded, Unresolved, FieldProblems;
    r, errs := policy, [];
    if policy.Some? {
      var file;
      file, errs := ExpandField(PolicyFile, policy.value.file, env);
      r := Some(PolicyRef(file));
    }
  }

  method ResolveSandbox(s: Sandbox, keys: seq<string>, env: Env) returns (r: Sandbox, errs: seq<Problem>)
    requires Enumerates(keys, s.env)
    ensures r == ExpandSandbox(s, env)
    ensures errs == SandboxProblems(s, keys, env)
  {
    hide Expanded, Unresolved, FieldProblems, ProviderProblems, EnvProblems, ExpandAll, ExpandMap;
    var image, policy, names, values, e;
    image, errs := ExpandField(Image, s.image, env);
    policy, e := ResolvePolicy(s.policy, env);
    errs := errs + e;
    names, e := ResolveProviders(s.providers, env);
    errs := errs + e;
    values, e := ResolveEnv(s.env, keys, env);
    errs := errs + e;
    r := s.(image := image, policy := policy, providers := names, env := values);
  }

  method ResolveAgent(a: Agent, env: Env) returns (r: Agent, errs: seq<Problem>)
    ensures r == Agent(Expanded(a.kind, env), ExpandAll(a.args, env)) && errs == AgentProblems(a, env)
  {
    hide Expanded, Unresolved, FieldProblems;
    var kind;
    kind, errs := ExpandField(AgentType, a.kind, env);
    var args: seq<string>, argErrs: seq<Problem> := [], [];
    for i := 0 to |a.args|
      invariant args == ExpandAll(a.args, env)[..i]
      invariant argErrs == ArgProblems(a.args, env, i)
    {
      var out, e := ExpandField(ArgAt(i), a.args[i], env);
      assert ExpandAll(a.args, env)[i] == out;
      PrefixGrows(ExpandAll(a.args, env), i);
      args, argErrs := args + [out], argErrs + e;
    }
    assert args == ExpandAll(a.args, env);
    r, errs := Agent(kind, args), errs + argErrs;
  }

  method ResolveSource(s: Source, env: Env) returns (r: Source, errs: seq<Problem>)
    ensures r == ExpandSource(s, env) && errs == SourceProblems(s, env)
  {
    hide Expanded, Unresolved, FieldProblems, HasTraversal;
    var out, e;
    r := s;
    out, errs := ExpandField(Repo, s.repo, env);
    r := r.(repo := out);
    out, e := ExpandField(SourceRef, s.ref, env);
    r, errs := r.(ref := out), errs + e;
    out, e := ExpandField(SourceDestination, s.destination, env);
    r, errs := r.(destination := out), errs + e;
    if HasTraversal(r.destination) {
      errs := errs + [DotDotSegment(SourceDestination)];
    }
    out, e := ExpandField(Submodules, s.submodules, env);
    r, errs := r.(submodules := out), errs + e;
  }

  method ResolvePayload(p: Payload, i: nat, env: Env)
    returns (r: Payload, variables: seq<Problem>, checks: seq<Problem>)
    ensures r == ExpandPayload(p, env) && variables == PayloadVariables(p, i, env) && checks == PayloadChecks(r, i)
  {
    hide Expanded, Unresolved, HasTraversal, FieldProblems;
    var source, content, dest, e;
    source, variables := ExpandField(PayloadSource(i), p.source, env);
    content, e := ExpandField(PayloadContent(i), p.content, env);
    variables := variables + e;
    dest, e := ExpandField(PayloadDestination(i), p.destination, env);
    variables := variables + e;
    checks := [];
    if dest == "" {
      checks := checks + [Required(PayloadDestination(i))];
    }
    if source != "" && content != "" {
      checks := checks + [BothSourceAndContent(i)];
    } else if source == "" && content == "" {
      checks := checks + [NeitherSourceNorContent(i)];
    }
    if HasTraversal(dest) {
      checks := checks + [DotDotSegment(PayloadDestination(i))];
    }
    r := Payload(source, content, dest);
  }

  method ResolvePayloads(raw: seq<Payload>, env: Env) returns (r: seq<Payload>, errs: seq<Problem>)
    ensures r == ExpandPayloads(raw, env) && errs == PayloadProblems(raw, env, |raw|)
  {
    hide Expanded, Unresolved, HasTraversal, FieldProblems, PayloadChecks, PayloadVariables;
    r, errs := [], [];
    for i := 0 to |raw|
      invariant r == ExpandPayloads(raw, env)[..i]
      invariant errs == PayloadProblems(raw, env, i)
    {
      var p, variables, checks := ResolvePayload(raw[i], i, env);
      assert ExpandPayloads(raw, env)[i] == p;
      PrefixGrows(ExpandPayloads(raw, env), i);
      r, errs := r + [p], errs + variables + checks;
    }
  }

  /** seenDestinations after `n` outputs: each claimed destination and who claimed it first. */
  ghost predicate Records(seen: map<string, nat>, raw: seq<Output>, env: Env, n: nat)
    requires n <= |raw|
  {
    forall destination: string ::
      FirstClaim(Claims(raw, env), n, destination) == if destination in seen then Some(seen[destination]) else None
  }

  method ResolveOutput(raw: seq<Output>, i: nat, env: Env, seen0: map<string, nat>)
    returns (o: Output, variables: seq<Problem>, checks: seq<Problem>, seen: map<string, nat>)
    requires i < |raw| && Records(seen0, raw, env, i)
    ensures o == ExpandOutput(raw[i], env)
    ensures variables == FieldProblems(OutputSource(i), raw[i].source, env)
      + FieldProblems(OutputDestination(i), raw[i].destination, env)
    ensures checks == OutputChecks(raw, env, i)
    ensures Records(seen, raw, env, i + 1)
  {
    hide Expanded, Unresolved, Clean, OutputSourceFault, OutputDestinationFault, FieldProblems;
    var source, destination, e;
    source, variables := ExpandField(OutputSource(i), raw[i].source, env);
    destination, e := ExpandField(OutputDestination(i), raw[i].destination, env);
    variables := variables + e;
    checks, seen := [], seen0;
    var cleanDestination := Clean(destination);
    var sourceFault := OutputSourceFault(source);
    if sourceFault.Some? {
      checks := checks + [BadOutputSource(i, sourceFault.value)];
    }
    var destinationFault := OutputDestinationFault(destination);
    if destinationFault.Some? {
      checks := checks + [BadOutputDestination(i, destinationFault.value)];
    } else if cleanDestination in seen {
      checks := checks + [DuplicateDestination(i, seen[cleanDestination])];
    } else {
      seen := seen[cleanDestination := i];
    }
    o := Output(Clean(source), cleanDestination, raw[i].required);
  }

  method ResolveOutputs(raw: seq<Output>, env: Env) returns (r: seq<Output>, errs: seq<Problem>)
    ensures r == ExpandOutputs(raw, env) && errs == OutputProblems(raw, env, |raw|)
  {
    hide Expanded, Unresolved, Clean, OutputSourceFault, OutputDestinationFault, FieldProblems, OutputChecks,
      FirstClaim;
    r, errs := [], [];
    var seen: map<string, nat> := map[];
    for i := 0 to |raw|
      invariant r == ExpandOutputs(raw, env)[..i]
      invariant errs == OutputProblems(raw, env, i)
      invariant Records(seen, raw, env, i)
    {
      var o, variables, checks;
      o, variables, checks, seen := ResolveOutput(raw, i, env, seen);
      assert ExpandOutputs(raw, env)[i] == o;
      PrefixGrows(ExpandOutputs(raw, env), i);
      r, errs := r + [o], errs + variables + checks;
    }
  }

  /** Resolve; `keys` is the order in which sandbox.env is ranged over. */
  method ResolveHarness(h: Harness, keys: seq<string>, env: Env, parse: string -> Option<int>)
    returns (r: Result<Harness, seq<Problem>>)
    requires Enumerates(keys, h.spec.sandbox.env)
    ensures r == Outcome(h, keys, env, parse)
  {
    hide NameProblems, TargetProblems, InferenceProblems, SandboxProblems, AgentProblems, SourceProblems,
      PayloadProblems, OutputProblems, ExpandTarget, ExpandInference, ExpandSandbox, ExpandAll, ExpandSource,
      ExpandPayloads, ExpandOutputs, Expanded;
    var resolved, errs, e := h, [], [];
    var name, target, inference, sandbox, agent, source, payloads, outputs;
    name, errs := ResolveName(h.name, env);
    target, e := ResolveTarget(h.spec.target, env);
    errs := errs + e;
    inference, e := ResolveInference(h.spec.inference, env, parse);
    errs := errs + e;
    sandbox, e := ResolveSandbox(h.spec.sandbox, keys, env);
    errs := errs + e;
    agent, e := ResolveAgent(h.spec.agent, env);
    errs := errs + e;
    source, e := ResolveSource(h.spec.source, env);
    errs := errs + e;
    payloads, e := ResolvePayloads(h.spec.payloads, env);
    errs := errs + e;
    outputs, e := ResolveOutputs(h.spec.outputs, env);
    errs := errs + e;
    if |errs| > 0 {
      return Err(errs);
    }
    resolved := Harness(h.version, name, Spec(target, inference, sandbox, agent, source, payloads, outputs));
    return Ok(resolved);
  }
}
