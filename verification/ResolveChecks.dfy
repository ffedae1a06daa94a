// The problems that are not about variables: each is reported exactly when the resolved
// document deserves it.
module ResolveChecks {
  import opened Strings
  import opened Paths
  import opened Schema
  import opened OutputPaths
  import opened Resolve
  import opened ResolveProofs

  predicate AboutVariable(p: Problem) {
    p.ProtectedVariable? || p.UnresolvedVariable?
  }

  /** The fields that must not be empty. */
  predicate MustBeSet(f: Field) {
    || f.NameField? || f.Endpoint? || f.Issuer? || f.ClientId? || f.Audience?
    || f.ProviderAt? || f.PayloadDestination?
  }

  /** What is wrong with a document whose fields resolve to those of `r`. */
  ghost predicate Deserved(h: Harness, env: Env, parse: string -> Option<int>, p: Problem) {
    var r := ExpandHarness(h, env);
    var s := r.spec;
    match p
    case ProtectedVariable(_) => false
    case UnresolvedVariable(_, _) => false
    case Required(f) => MustBeSet(f) && FieldText(r, f) == Some("")
    case OidcRequired => s.target.registration.Some? && s.target.registration.value.oidc.None?
    case MalformedRoute(route) => route == s.inference.route && route != "" && !IsRouteName(route)
    case BadTimeout(fault) => TimeoutSecs(s.inference.timeout, parse) == Err(fault)
    case RequiredByInference(f) =>
      InferenceConfigured(s.inference) && (f.InferenceProvider? || f.Model?) && FieldText(r, f) == Some("")
    case DotDotSegment(f) =>
      && (f.SourceDestination? || f.PayloadDestination?)
      && FieldText(r, f).Some? && HasTraversal(FieldText(r, f).value)
    case BothSourceAndContent(i) => i < |s.payloads| && s.payloads[i].source != "" && s.payloads[i].content != ""
    case NeitherSourceNorContent(i) => i < |s.payloads| && s.payloads[i].source == "" && s.payloads[i].content == ""
    case BadOutputSource(i, why) =>
      i < |h.spec.outputs| && OutputSourceFault(Expanded(h.spec.outputs[i].source, env)) == Some(why)
    case BadOutputDestination(i, why) =>
      i < |h.spec.outputs| && OutputDestinationFault(Expanded(h.spec.outputs[i].destination, env)) == Some(why)
    case DuplicateDestination(i, previous) => FirstOfSame(h.spec.outputs, env, i, previous)
  }

  /** Output `i` has an acceptable destination that `previous` is the first to have. */
  ghost predicate FirstOfSame(outputs: seq<Output>, env: Env, i: nat, previous: nat) {
    && previous < i < |outputs|
    && Claim(outputs[i], env).Some? && Claim(outputs[previous], env) == Claim(outputs[i], env)
    && forall k :: 0 <= k < previous ==> Claim(outputs[k], env) != Claim(outputs[i], env)
  }

  datatype Part = NamePart | TargetPart | InferencePart | SandboxPart | SourcePart | PayloadPart | OutputPart

  /** Where in the document a problem is found. */
  function PartOf(p: Problem): Part {
    match p
    case ProtectedVariable(f) => PartOfField(f)
    case UnresolvedVariable(_, f) => PartOfField(f)
    case Required(f) => PartOfField(f)
    case OidcRequired => TargetPart
    case MalformedRoute(_) => InferencePart
    case BadTimeout(_) => InferencePart
    case RequiredByInference(_) => InferencePart
    case DotDotSegment(f) => PartOfField(f)
    case BothSourceAndContent(_) => PayloadPart
    case NeitherSourceNorContent(_) => PayloadPart
    case BadOutputSource(_, _) => OutputPart
    case BadOutputDestination(_, _) => OutputPart
    case DuplicateDestination(_, _) => OutputPart
  }

  function PartOfField(f: Field): Part {
    match f
    case NameField => NamePart
    case Gateway | Workspace | Endpoint | Issuer | ClientId | Audience => TargetPart
    case Route | InferenceProvider | Model | Timeout => InferencePart
    case Repo | SourceRef | SourceDestination | Submodules => SourcePart
    case PayloadSource(_) | PayloadContent(_) | PayloadDestination(_) => PayloadPart
    case OutputSource(_) | OutputDestination(_) => OutputPart
    case _ => SandboxPart
  }

  lemma VariablesOnly(f: Field, raw: string, env: Env)
    ensures forall p :: p in FieldProblems(f, raw, env) ==> AboutVariable(p)
  {
    hide Unresolved;
    var names := Unresolved(raw, env);
    forall p | p in FieldProblems(f, raw, env) ensures AboutVariable(p) {
      var i :| 0 <= i < |names| && VariableProblems(f, names)[i] == p;
    }
  }

  lemma NameExact(h: Harness, env: Env, parse: string -> Option<int>, p: Problem)
    requires !AboutVariable(p)
    ensures p in NameProblems(h.name, env) <==> Deserved(h, env, parse, p) && PartOf(p) == NamePart
  {
    hide FieldProblems, Expanded, OutputSourceFault, OutputDestinationFault, FirstOfSame, HasTraversal, IsRouteName;
    VariablesOnly(NameField, h.name, env);
  }

  lemma OidcVariablesOnly(o: OIDC, env: Env)
    ensures forall p :: p in OidcVariables(o, env) ==> AboutVariable(p)
  {
    hide FieldProblems;
    VariablesOnly(Issuer, o.issuer, env);
    VariablesOnly(ClientId, o.clientId, env);
    VariablesOnly(Audience, o.audience, env);
  }

  lemma OidcChecks(o: OIDC, p: Problem)
    ensures p in OidcProblems(o) <==>
      || (p == Required(Issuer) && o.issuer == "")
      || (p == Required(ClientId) && o.clientId == "")
      || (p == Required(Audience) && o.audience == "")
  {}

  lemma RegistrationChecks(r: Registration, env: Env, p: Problem)
    requires !AboutVariable(p)
    ensures p in RegistrationProblems(r, env) <==>
      || (p == Required(Endpoint) && Expanded(r.endpoint, env) == "")
      || (p == OidcRequired && r.oidc.None?)
      || (r.oidc.Some? && p in OidcProblems(ExpandOidc(r.oidc.value, env)))
  {
    hide FieldProblems, Expanded, OidcProblems, OidcVariables;
    VariablesOnly(Endpoint, r.endpoint, env);
    if r.oidc.Some? {
      OidcVariablesOnly(r.oidc.value, env);
    }
  }

  lemma TargetChecks(t: Target, env: Env, p: Problem)
    requires !AboutVariable(p)
    ensures p in TargetProblems(t, env) <==>
      t.registration.Some? && p in RegistrationProblems(t.registration.value, env)
  {
    hide FieldProblems, RegistrationProblems;
    VariablesOnly(Gateway, t.gateway, env);
    VariablesOnly(Workspace, t.workspace, env);
  }

  lemma TargetExact(h: Harness, env: Env, parse: string -> Option<int>, p: Problem)
    requires !AboutVariable(p)
    ensures p in TargetProblems(h.spec.target, env) <==> Deserved(h, env, parse, p) && PartOf(p) == TargetPart
  {
    hide TargetProblems, RegistrationProblems, OidcProblems, Expanded, OutputSourceFault, OutputDestinationFault,
      FirstOfSame, HasTraversal, IsRouteName, TimeoutSecs;
    TargetChecks(h.spec.target, env, p);
    if h.spec.target.registration.Some? {
      RegistrationChecks(h.spec.target.registration.value, env, p);
      if h.spec.target.registration.value.oidc.Some? {
        OidcChecks(ExpandOidc(h.spec.target.registration.value.oidc.value, env), p);
      }
    }
  }

  lemma InferenceVariablesOnly(inf: Inference, env: Env)
    ensures forall p :: p in InferenceVariables(inf, env) ==> AboutVariable(p)
  {
    hide FieldProblems;
    VariablesOnly(InferenceProvider, inf.provider, env);
    VariablesOnly(Model, inf.model, env);
    VariablesOnly(Timeout, inf.timeout, env);
  }

  lemma InferenceCheckMembers(inf: Inference, parse: string -> Option<int>, p: Problem)
    ensures p in InferenceChecks(inf, parse) <==>
      || (p.BadTimeout? && TimeoutSecs(inf.timeout, parse) == Err(p.fault))
      || (p == RequiredByInference(InferenceProvider) && InferenceConfigured(inf) && inf.provider == "")
      || (p == RequiredByInference(Model) && InferenceConfigured(inf) && inf.model == "")
  {
    hide TimeoutSecs, InferenceConfigured;
  }

  lemma InferenceMembers(inf: Inference, env: Env, parse: string -> Option<int>, p: Problem)
    requires !AboutVariable(p)
    ensures p in InferenceProblems(inf, env, parse) <==>
      || (p == MalformedRoute(Expanded(inf.route, env)) && Expanded(inf.route, env) != ""
          && !IsRouteName(Expanded(inf.route, env)))
      || p in InferenceChecks(ExpandInference(inf, env), parse)
  {
    hide FieldProblems, InferenceVariables, InferenceChecks, Expanded, IsRouteName;
    VariablesOnly(Route, inf.route, env);
    InferenceVariablesOnly(inf, env);
  }

  lemma InferenceExact(h: Harness, env: Env, parse: string -> Option<int>, p: Problem)
    requires !AboutVariable(p)
    ensures p in InferenceProblems(h.spec.inference, env, parse) <==>
      Deserved(h, env, parse, p) && PartOf(p) == InferencePart
  {
    hide InferenceProblems, InferenceChecks, Expanded, OutputSourceFault, OutputDestinationFault, FirstOfSame,
      HasTraversal, IsRouteName, TimeoutSecs, InferenceConfigured;
    InferenceMembers(h.spec.inference, env, parse, p);
    InferenceCheckMembers(ExpandInference(h.spec.inference, env), parse, p);
  }

  lemma SourceExact(h: Harness, env: Env, parse: string -> Option<int>, p: Problem)
    requires !AboutVariable(p)
    ensures p in SourceProblems(h.spec.source, env) <==> Deserved(h, env, parse, p) && PartOf(p) == SourcePart
  {
    hide FieldProblems, Expanded, OutputSourceFault, OutputDestinationFault, FirstOfSame, HasTraversal, IsRouteName;
    var s := h.spec.source;
    VariablesOnly(Repo, s.repo, env);
    VariablesOnly(SourceRef, s.ref, env);
    VariablesOnly(SourceDestination, s.destination, env);
    VariablesOnly(Submodules, s.submodules, env);
  }

  lemma {:induction false} ProviderMembers(raw: seq<string>, env: Env, n: nat, p: Problem)
    requires n <= |raw| && !AboutVariable(p)
    ensures p in ProviderProblems(raw, env, n) <==>
      p.Required? && p.field.ProviderAt? && p.field.i < n && Expanded(raw[p.field.i], env) == ""
  {
    hide FieldProblems, Expanded;
    if n > 0 {
      ProviderMembers(raw, env, n - 1, p);
      VariablesOnly(ProviderAt(n - 1), raw[n - 1], env);
    }
  }

  lemma {:induction false} EnvVariablesOnly(raw: map<string, string>, keys: seq<string>, env: Env, n: nat)
    requires n <= |keys| && forall key :: key in keys ==> key in raw
    ensures forall p :: p in EnvProblems(raw, keys, env, n) ==> AboutVariable(p)
  {
    hide FieldProblems;
    if n > 0 {
      EnvVariablesOnly(raw, keys, env, n - 1);
      VariablesOnly(EnvOf(keys[n - 1]), raw[keys[n - 1]], env);
    }
  }

  lemma {:induction false} ArgVariablesOnly(raw: seq<string>, env: Env, n: nat)
    requires n <= |raw|
    ensures forall p :: p in ArgProblems(raw, env, n) ==> AboutVariable(p)
  {
    hide FieldProblems;
    if n > 0 {
      ArgVariablesOnly(raw, env, n - 1);
      VariablesOnly(ArgAt(n - 1), raw[n - 1], env);
    }
  }

  lemma SandboxMembers(s: Sandbox, keys: seq<string>, env: Env, p: Problem)
    requires Enumerates(keys, s.env) && !AboutVariable(p)
    ensures p in SandboxProblems(s, keys, env) <==> p in ProviderProblems(s.providers, env, |s.providers|)
  {
    hide FieldProblems, ProviderProblems, EnvProblems;
    VariablesOnly(Image, s.image, env);
    if s.policy.Some? {
      VariablesOnly(PolicyFile, s.policy.value.file, env);
    }
    EnvVariablesOnly(s.env, keys, env, |keys|);
  }

  lemma AgentVariablesOnly(a: Agent, env: Env)
    ensures forall p :: p in AgentProblems(a, env) ==> AboutVariable(p)
  {
    hide FieldProblems, ArgProblems;
    VariablesOnly(AgentType, a.kind, env);
    ArgVariablesOnly(a.args, env, |a.args|);
  }

  lemma SandboxExact(h: Harness, keys: seq<string>, env: Env, parse: string -> Option<int>, p: Problem)
    requires !AboutVariable(p) && Enumerates(keys, h.spec.sandbox.env)
    ensures p in SandboxProblems(h.spec.sandbox, keys, env) + AgentProblems(h.spec.agent, env) <==>
      Deserved(h, env, parse, p) && PartOf(p) == SandboxPart
  {
    hide SandboxProblems, AgentProblems, ProviderProblems, Expanded, OutputSourceFault, OutputDestinationFault,
      FirstOfSame, HasTraversal, IsRouteName, TimeoutSecs;
    SandboxMembers(h.spec.sandbox, keys, env, p);
    AgentVariablesOnly(h.spec.agent, env);
    ProviderMembers(h.spec.sandbox.providers, env, |h.spec.sandbox.providers|, p);
  }

  /** What is wrong with payload `i` by itself. */
  predicate PayloadDeserves(q: Payload, i: nat, p: Problem) {
    || (p == Required(PayloadDestination(i)) && q.destination == "")
    || (p == DotDotSegment(PayloadDestination(i)) && HasTraversal(q.destination))
    || (p == BothSourceAndContent(i) && q.source != "" && q.content != "")
    || (p == NeitherSourceNorContent(i) && q.source == "" && q.content == "")
  }

  lemma PayloadMembers(q: Payload, i: nat, env: Env, p: Problem)
    requires !AboutVariable(p)
    ensures p in PayloadChecks(ExpandPayload(q, env), i) <==> PayloadDeserves(ExpandPayload(q, env), i, p)
    ensures p !in PayloadVariables(q, i, env)
  {
    hide FieldProblems, Expanded, HasTraversal;
    VariablesOnly(PayloadSource(i), q.source, env);
    VariablesOnly(PayloadContent(i), q.content, env);
    VariablesOnly(PayloadDestination(i), q.destination, env);
  }

  lemma {:induction false} PayloadsMembers(raw: seq<Payload>, env: Env, n: nat, p: Problem)
    requires n <= |raw| && !AboutVariable(p)
    ensures p in PayloadProblems(raw, env, n) <==>
      exists i :: 0 <= i < n && PayloadDeserves(ExpandPayload(raw[i], env), i, p)
  {
    hide PayloadChecks, PayloadVariables, ExpandPayload, PayloadDeserves;
    if n > 0 {
      PayloadsMembers(raw, env, n - 1, p);
      PayloadMembers(raw[n - 1], n - 1, env, p);
    }
  }

  /** Which payload or output a problem is about. */
  function At(p: Problem): nat {
    match p
    case Required(PayloadDestination(i)) => i
    case DotDotSegment(PayloadDestination(i)) => i
    case BothSourceAndContent(i) => i
    case NeitherSourceNorContent(i) => i
    case BadOutputSource(i, _) => i
    case BadOutputDestination(i, _) => i
    case DuplicateDestination(i, _) => i
    case _ => 0
  }

  lemma PayloadDeserved(h: Harness, env: Env, parse: string -> Option<int>, i: nat, p: Problem)
    requires !AboutVariable(p) && i < |h.spec.payloads|
    ensures PayloadDeserves(ExpandPayload(h.spec.payloads[i], env), i, p) <==>
      Deserved(h, env, parse, p) && PartOf(p) == PayloadPart && At(p) == i
  {
    hide ExpandPayload, ExpandTarget, ExpandInference, ExpandSandbox, ExpandSource, ExpandOutputs, Expanded,
      HasTraversal, OutputSourceFault, OutputDestinationFault, FirstOfSame, IsRouteName, TimeoutSecs;
    assert ExpandPayloads(h.spec.payloads, env)[i] == ExpandPayload(h.spec.payloads[i], env);
  }

  lemma PayloadInRange(h: Harness, env: Env, parse: string -> Option<int>, p: Problem)
    requires Deserved(h, env, parse, p) && PartOf(p) == PayloadPart
    ensures At(p) < |h.spec.payloads|
  {
    hide Expanded, HasTraversal, OutputSourceFault, OutputDestinationFault, FirstOfSame, IsRouteName, TimeoutSecs;
  }

  lemma PayloadsExact(h: Harness, env: Env, parse: string -> Option<int>, p: Problem)
    requires !AboutVariable(p)
    ensures p in PayloadProblems(h.spec.payloads, env, |h.spec.payloads|) <==>
      Deserved(h, env, parse, p) && PartOf(p) == PayloadPart
  {
    hide PayloadProblems, ExpandPayload, PayloadDeserves, Deserved, PartOf;
    var raw := h.spec.payloads;
    PayloadsMembers(raw, env, |raw|, p);
    forall i | 0 <= i < |raw|
      ensures PayloadDeserves(ExpandPayload(raw[i], env), i, p) <==>
        Deserved(h, env, parse, p) && PartOf(p) == PayloadPart && At(p) == i
    {
      PayloadDeserved(h, env, parse, i, p);
    }
    if Deserved(h, env, parse, p) && PartOf(p) == PayloadPart {
      PayloadInRange(h, env, parse, p);
      assert PayloadDeserves(ExpandPayload(raw[At(p)], env), At(p), p);
    }
  }

  /** What is wrong with output `i`. */
  ghost predicate OutputDeserves(raw: seq<Output>, env: Env, i: nat, p: Problem)
    requires i < |raw|
  {
    || (p.BadOutputSource? && p.i == i && OutputSourceFault(Expanded(raw[i].source, env)) == Some(p.why))
    || (p.BadOutputDestination? && p.i == i && OutputDestinationFault(Expanded(raw[i].destination, env)) == Some(p.why))
    || (p.DuplicateDestination? && p.i == i && FirstOfSame(raw, env, i, p.previous))
  }

  lemma FirstClaimIsFirst(raw: seq<Output>, env: Env, i: nat, previous: nat)
    requires i < |raw| && Claim(raw[i], env).Some?
    ensures FirstClaim(Claims(raw, env), i, Claim(raw[i], env).value) == Some(previous) <==>
      FirstOfSame(raw, env, i, previous)
  {
    hide Claim, FirstClaim;
    var claims, first := Claims(raw, env), FirstClaim(Claims(raw, env), i, Claim(raw[i], env).value);
    assert forall k :: 0 <= k < |raw| ==> claims[k] == Claim(raw[k], env);
    if FirstOfSame(raw, env, i, previous) {
      assert claims[previous] == Claim(raw[i], env);
    }
  }

  lemma OutputMembers(raw: seq<Output>, env: Env, i: nat, p: Problem)
    requires i < |raw|
    ensures p in OutputChecks(raw, env, i) <==> OutputDeserves(raw, env, i, p)
  {
    hide Expanded, OutputSourceFault, OutputDestinationFault, FirstOfSame, FirstClaim, Claims, Clean;
    if Claim(raw[i], env).Some? {
      var first := FirstClaim(Claims(raw, env), i, Claim(raw[i], env).value);
      if first.Some? {
        FirstClaimIsFirst(raw, env, i, first.value);
      }
      if p.DuplicateDestination? {
        FirstClaimIsFirst(raw, env, i, p.previous);
      }
    } else {
      NoClaimNoDuplicate(raw, env, i);
    }
  }

  lemma NoClaimNoDuplicate(raw: seq<Output>, env: Env, i: nat)
    requires i < |raw| && Claim(raw[i], env).None?
    ensures forall previous :: !FirstOfSame(raw, env, i, previous)
  {}

  lemma {:induction false} OutputsMembers(raw: seq<Output>, env: Env, n: nat, p: Problem)
    requires n <= |raw| && !AboutVariable(p)
    ensures p in OutputProblems(raw, env, n) <==> exists i :: 0 <= i < n && OutputDeserves(raw, env, i, p)
  {
    hide OutputChecks, FieldProblems, OutputDeserves;
    if n > 0 {
      OutputsMembers(raw, env, n - 1, p);
      OutputMembers(raw, env, n - 1, p);
      VariablesOnly(OutputSource(n - 1), raw[n - 1].source, env);
      VariablesOnly(OutputDestination(n - 1), raw[n - 1].destination, env);
    }
  }

  lemma OutputDeserved(h: Harness, env: Env, parse: string -> Option<int>, i: nat, p: Problem)
    requires !AboutVariable(p) && i < |h.spec.outputs|
    ensures OutputDeserves(h.spec.outputs, env, i, p) <==>
      Deserved(h, env, parse, p) && PartOf(p) == OutputPart && At(p) == i
  {
    hide ExpandHarness, Expanded, HasTraversal, OutputSourceFault, OutputDestinationFault, FirstOfSame, IsRouteName,
      TimeoutSecs;
  }

  lemma OutputInRange(h: Harness, env: Env, parse: string -> Option<int>, p: Problem)
    requires Deserved(h, env, parse, p) && PartOf(p) == OutputPart
    ensures At(p) < |h.spec.outputs|
  {
    hide ExpandHarness, Expanded, HasTraversal, OutputSourceFault, OutputDestinationFault, IsRouteName, TimeoutSecs;
  }

  lemma OutputsExact(h: Harness, env: Env, parse: string -> Option<int>, p: Problem)
    requires !AboutVariable(p)
    ensures p in OutputProblems(h.spec.outputs, env, |h.spec.outputs|) <==>
      Deserved(h, env, parse, p) && PartOf(p) == OutputPart
  {
    hide OutputProblems, OutputDeserves, Deserved, PartOf;
    var raw := h.spec.outputs;
    OutputsMembers(raw, env, |raw|, p);
    forall i | 0 <= i < |raw|
      ensures OutputDeserves(raw, env, i, p) <==> Deserved(h, env, parse, p) && PartOf(p) == OutputPart && At(p) == i
    {
      OutputDeserved(h, env, parse, i, p);
    }
    if Deserved(h, env, parse, p) && PartOf(p) == OutputPart {
      OutputInRange(h, env, parse, p);
      assert OutputDeserves(raw, env, At(p), p);
    }
  }

  /** Every problem but those about variables is reported exactly when the resolved document
      deserves it: each missing, malformed, contradictory or duplicate value is named, for
      its own field, and nothing else is. */
  lemma ProblemsAreExact(h: Harness, keys: seq<string>, env: Env, parse: string -> Option<int>, p: Problem)
    requires Enumerates(keys, h.spec.sandbox.env) && !AboutVariable(p)
    ensures p in Problems(h, keys, env, parse) <==> Deserved(h, env, parse, p)
  {
    hide Deserved, NameProblems, TargetProblems, InferenceProblems, SandboxProblems, AgentProblems, SourceProblems,
      PayloadProblems, OutputProblems, PartOf, AboutVariable;
    NameExact(h, env, parse, p);
    TargetExact(h, env, parse, p);
    InferenceExact(h, env, parse, p);
    SandboxExact(h, keys, env, parse, p);
    SourceExact(h, env, parse, p);
    PayloadsExact(h, env, parse, p);
    OutputsExact(h, env, parse, p);
  }
}
