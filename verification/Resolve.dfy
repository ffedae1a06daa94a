// Resolve of internal/config/env.go: every string field is interpolated, all
// problems are collected in order, and the document is returned only when there
// are none.
module Resolve {
  import opened Strings
  import opened Paths
  import opened Schema
  import Expand
  import opened OutputPaths

  const PROTECTED := "OPENSHELL_OIDC_CLIENT_SECRET"

  /** The fields that are interpolated, as named in error messages. */
  datatype Field =
    | NameField | Gateway | Workspace | Endpoint | Issuer | ClientId | Audience
    | Route | InferenceProvider | Model | Timeout
    | Image | PolicyFile | ProviderAt(i: nat) | EnvOf(key: string)
    | AgentType | ArgAt(i: nat)
    | Repo | SourceRef | SourceDestination | Submodules
    | PayloadSource(i: nat) | PayloadContent(i: nat) | PayloadDestination(i: nat)
    | OutputSource(i: nat) | OutputDestination(i: nat)

  datatype Problem =
    | ProtectedVariable(field: Field)
    | UnresolvedVariable(name: string, field: Field)
    | Required(field: Field)
    | OidcRequired
    | MalformedRoute(route: string)
    | BadTimeout(fault: TimeoutFault)
    | RequiredByInference(field: Field)
    | DotDotSegment(field: Field)
    | BothSourceAndContent(i: nat)
    | NeitherSourceNorContent(i: nat)
    | BadOutputSource(i: nat, why: PathFault)
    | BadOutputDestination(i: nat, why: PathFault)
    | DuplicateDestination(i: nat, previous: nat)

  predicate IsAlphanumeric(c: char) {
    'a' <= c <= 'z' || 'A' <= c <= 'Z' || '0' <= c <= '9'
  }

  /** routeNamePattern. */
  predicate IsRouteName(s: string) {
    && s != ""
    && IsAlphanumeric(s[0]) && IsAlphanumeric(s[|s| - 1])
    && forall c :: c in s ==> IsAlphanumeric(c) || c in {'.', '_', '-'}
  }

  /** routeNamePattern, read as a regular expression: one alphanumeric, or two of them
      around letters, digits, dots, underscores and hyphens. */
  lemma RouteNamePattern(s: string)
    ensures IsRouteName(s) <==>
      || (|s| == 1 && IsAlphanumeric(s[0]))
      || (exists first, middle, last :: s == [first] + middle + [last]
            && IsAlphanumeric(first) && IsAlphanumeric(last) && RouteChars(middle))
  {
    if |s| > 1 {
      var middle := s[1..|s| - 1];
      assert s == [s[0]] + middle + [s[|s| - 1]];
      assert IsRouteName(s) ==> RouteChars(middle);
    }
  }

  predicate RouteChars(s: string) {
    forall c :: c in s ==> IsAlphanumeric(c) || c == '.' || c == '_' || c == '-'
  }

  type Env = Expand.Env

  /** The closure handed to the scanner: the protected variable reads as unset, every
      other name is looked up. */
  function Guarded(env: Env): Expand.Lookup {
    name => if name == PROTECTED then "" else Expand.Getenv(env, name)
  }

  // -------------------------------------------------------- the meaning
  // Here `env` is the whole environment; it is guarded at each lookup.

  function Expanded(raw: string, env: Env): string {
    Expand.Expanded(raw, Guarded(env))
  }

  function Unresolved(raw: string, env: Env): seq<string> {
    Expand.Unresolved(raw, Guarded(env))
  }

  function VariableProblems(field: Field, names: seq<string>): seq<Problem> {
    seq(|names|, i requires 0 <= i < |names| =>
      if names[i] == PROTECTED then ProtectedVariable(field) else UnresolvedVariable(names[i], field))
  }

  function FieldProblems(field: Field, raw: string, env: Env): seq<Problem> {
    VariableProblems(field, Unresolved(raw, env))
  }

  function When(condition: bool, p: Problem): seq<Problem> {
    if condition then [p] else []
  }

  function ExpandAll(raw: seq<string>, env: Env): seq<string> {
    seq(|raw|, i requires 0 <= i < |raw| => Expanded(raw[i], env))
  }

  function NameProblems(raw: string, env: Env): seq<Problem> {
    FieldProblems(NameField, raw, env) + When(Expanded(raw, env) == "", Required(NameField))
  }

  function ExpandOidc(o: OIDC, env: Env): OIDC {
    OIDC(Expanded(o.issuer, env), Expanded(o.clientId, env), Expanded(o.audience, env))
  }

  function OidcVariables(o: OIDC, env: Env): seq<Problem> {
    FieldProblems(Issuer, o.issuer, env) + FieldProblems(ClientId, o.clientId, env)
      + FieldProblems(Audience, o.audience, env)
  }

  function OidcProblems(o: OIDC): seq<Problem> {
    When(o.issuer == "", Required(Issuer)) + When(o.clientId == "", Required(ClientId))
    + When(o.audience == "", Required(Audience))
  }

  function ExpandRegistration(r: Registration, env: Env): Registration {
    Registration(Expanded(r.endpoint, env), if r.oidc.Some? then Some(ExpandOidc(r.oidc.value, env)) else None)
  }

  function RegistrationProblems(r: Registration, env: Env): seq<Problem> {
    FieldProblems(Endpoint, r.endpoint, env)
    + (if r.oidc.Some? then OidcVariables(r.oidc.value, env) else [])
    + When(Expanded(r.endpoint, env) == "", Required(Endpoint))
    + (if r.oidc.Some? then OidcProblems(ExpandOidc(r.oidc.value, env)) else [OidcRequired])
  }

  function ExpandTarget(t: Target, env: Env): Target {
    Target(Expanded(t.gateway, env), Expanded(t.workspace, env),
      if t.registration.Some? then Some(ExpandRegistration(t.registration.value, env)) else None)
  }

  function TargetProblems(t: Target, env: Env): seq<Problem> {
    FieldProblems(Gateway, t.gateway, env) + FieldProblems(Workspace, t.workspace, env)
    + (if t.registration.Some? then RegistrationProblems(t.registration.value, env) else [])
  }

  function ExpandInference(inf: Inference, env: Env): Inference {
    Inference(Expanded(inf.route, env), Expanded(inf.provider, env), Expanded(inf.model, env),
              Expanded(inf.timeout, env), inf.verify)
  }

  function InferenceVariables(inf: Inference, env: Env): seq<Problem> {
    FieldProblems(InferenceProvider, inf.provider, env) + FieldProblems(Model, inf.model, env)
    + FieldProblems(Timeout, inf.timeout, env)
  }

  function TimeoutProblems(timeout: string, parse: string -> Option<int>): seq<Problem> {
    var r := TimeoutSecs(timeout, parse);
    if r.Err? then [BadTimeout(r.error)] else []
  }

  function InferenceChecks(inf: Inference, parse: string -> Option<int>): seq<Problem> {
    TimeoutProblems(inf.timeout, parse)
    + When(InferenceConfigured(inf) && inf.provider == "", RequiredByInference(InferenceProvider))
    + When(InferenceConfigured(inf) && inf.model == "", RequiredByInference(Model))
  }

  function InferenceProblems(inf: Inference, env: Env, parse: string -> Option<int>): seq<Problem> {
    var route := Expanded(inf.route, env);
    FieldProblems(Route, inf.route, env) + When(route != "" && !IsRouteName(route), MalformedRoute(route))
    + InferenceVariables(inf, env) + InferenceChecks(ExpandInference(inf, env), parse)
  }

  function ProviderProblems(raw: seq<string>, env: Env, n: nat): seq<Problem>
    requires n <= |raw|
  {
    if n == 0 then []
    else
      ProviderProblems(raw, env, n - 1) + FieldProblems(ProviderAt(n - 1), raw[n - 1], env)
      + When(Expanded(raw[n - 1], env) == "", Required(ProviderAt(n - 1)))
  }

  /** `keys` is the order in which the map is ranged over. */
  function EnvProblems(raw: map<string, string>, keys: seq<string>, env: Env, n: nat): seq<Problem>
    requires n <= |keys| && forall key :: key in keys ==> key in raw
  {
    if n == 0 then [] else EnvProblems(raw, keys, env, n - 1) + FieldProblems(EnvOf(keys[n - 1]), raw[keys[n - 1]], env)
  }

  function ExpandMap(raw: map<string, string>, env: Env): map<string, string> {
    map key | key in raw :: Expanded(raw[key], env)
  }

  function ExpandSandbox(s: Sandbox, env: Env): Sandbox {
    Sandbox(
      Expanded(s.image, env), ExpandAll(s.providers, env),
      if s.policy.Some? then Some(PolicyRef(Expanded(s.policy.value.file, env))) else None,
      ExpandMap(s.env, env), s.keep, s.tty)
  }

  ghost predicate Enumerates(keys: seq<string>, m: map<string, string>) {
    && (forall key :: key in keys <==> key in m)
    && (forall i, j :: 0 <= i < j < |keys| ==> keys[i] != keys[j])
  }

  function SandboxProblems(s: Sandbox, keys: seq<string>, env: Env): seq<Problem>
    requires Enumerates(keys, s.env)
  {
    FieldProblems(Image, s.image, env)
    + (if s.policy.Some? then FieldProblems(PolicyFile, s.policy.value.file, env) else [])
    + ProviderProblems(s.providers, env, |s.providers|)
    + EnvProblems(s.env, keys, env, |keys|)
  }

  function ArgProblems(raw: seq<string>, env: Env, n: nat): seq<Problem>
    requires n <= |raw|
  {
    if n == 0 then [] else ArgProblems(raw, env, n - 1) + FieldProblems(ArgAt(n - 1), raw[n - 1], env)
  }

  function AgentProblems(a: Agent, env: Env): seq<Problem> {
    FieldProblems(AgentType, a.kind, env) + ArgProblems(a.args, env, |a.args|)
  }

  function ExpandSource(s: Source, env: Env): Source {
    Source(Expanded(s.repo, env), Expanded(s.ref, env), Expanded(s.destination, env), Expanded(s.submodules, env))
  }

  function SourceProblems(s: Source, env: Env): seq<Problem> {
    FieldProblems(Repo, s.repo, env) + FieldProblems(SourceRef, s.ref, env)
      + FieldProblems(SourceDestination, s.destination, env)
    + When(HasTraversal(Expanded(s.destination, env)), DotDotSegment(SourceDestination))
    + FieldProblems(Submodules, s.submodules, env)
  }

  function ExpandPayload(p: Payload, env: Env): Payload {
    Payload(Expanded(p.source, env), Expanded(p.content, env), Expanded(p.destination, env))
  }

  function PayloadChecks(p: Payload, i: nat): seq<Problem> {
    When(p.destination == "", Required(PayloadDestination(i)))
    + (if p.source != "" && p.content != "" then [BothSourceAndContent(i)]
       else if p.source == "" && p.content == "" then [NeitherSourceNorContent(i)]
       else [])
    + When(HasTraversal(p.destination), DotDotSegment(PayloadDestination(i)))
  }

  function PayloadVariables(p: Payload, i: nat, env: Env): seq<Problem> {
    FieldProblems(PayloadSource(i), p.source, env) + FieldProblems(PayloadContent(i), p.content, env)
    + FieldProblems(PayloadDestination(i), p.destination, env)
  }

  function PayloadProblems(raw: seq<Payload>, env: Env, n: nat): seq<Problem>
    requires n <= |raw|
  {
    if n == 0 then []
    else
      PayloadProblems(raw, env, n - 1) + PayloadVariables(raw[n - 1], n - 1, env)
      + PayloadChecks(ExpandPayload(raw[n - 1], env), n - 1)
  }

  function ExpandPayloads(raw: seq<Payload>, env: Env): seq<Payload> {
    seq(|raw|, i requires 0 <= i < |raw| => ExpandPayload(raw[i], env))
  }

  function ExpandOutput(o: Output, env: Env): Output {
    Output(Clean(Expanded(o.source, env)), Clean(Expanded(o.destination, env)), o.required)
  }

  function ExpandOutputs(raw: seq<Output>, env: Env): seq<Output> {
    seq(|raw|, i requires 0 <= i < |raw| => ExpandOutput(raw[i], env))
  }

  /** The cleaned destination of an output, when it is acceptable in itself. */
  function Claim(o: Output, env: Env): Option<string> {
    var destination := Expanded(o.destination, env);
    if OutputDestinationFault(destination).Some? then None else Some(Clean(destination))
  }

  function Claims(raw: seq<Output>, env: Env): (claims: seq<Option<string>>)
    ensures |claims| == |raw|
  {
    seq(|raw|, i requires 0 <= i < |raw| => Claim(raw[i], env))
  }

  /** The first of the first `n` outputs that claims `destination`. */
  function FirstClaim(claims: seq<Option<string>>, n: nat, destination: string): (i: Option<nat>)
    requires n <= |claims|
    ensures i.Some? ==> i.value < n && claims[i.value] == Some(destination)
    ensures forall k :: 0 <= k < n && (i.None? || k < i.value) ==> claims[k] != Some(destination)
  {
    if n == 0 then None
    else
      var before := FirstClaim(claims, n - 1, destination);
      if before.Some? then before else if claims[n - 1] == Some(destination) then Some(n - 1) else None
  }

  function OutputChecks(raw: seq<Output>, env: Env, i: nat): seq<Problem>
    requires i < |raw|
  {
    var sourceFault := OutputSourceFault(Expanded(raw[i].source, env));
    var destination := Expanded(raw[i].destination, env);
    var destinationFault := OutputDestinationFault(destination);
    (if sourceFault.Some? then [BadOutputSource(i, sourceFault.value)] else [])
    + if destinationFault.Some? then [BadOutputDestination(i, destinationFault.value)]
      else
        var previous := FirstClaim(Claims(raw, env), i, Clean(destination));
        if previous.Some? then [DuplicateDestination(i, previous.value)] else []
  }

  function OutputProblems(raw: seq<Output>, env: Env, n: nat): seq<Problem>
    requires n <= |raw|
  {
    if n == 0 then []
    else
      OutputProblems(raw, env, n - 1)
      + (FieldProblems(OutputSource(n - 1), raw[n - 1].source, env)
         + FieldProblems(OutputDestination(n - 1), raw[n - 1].destination, env))
      + OutputChecks(raw, env, n - 1)
  }

  function ExpandSpec(s: Spec, env: Env): Spec {
    Spec(
      ExpandTarget(s.target, env), ExpandInference(s.inference, env), ExpandSandbox(s.sandbox, env),
      Agent(Expanded(s.agent.kind, env), ExpandAll(s.agent.args, env)), ExpandSource(s.source, env),
      ExpandPayloads(s.payloads, env), ExpandOutputs(s.outputs, env))
  }

  function ExpandHarness(h: Harness, env: Env): Harness {
    Harness(h.version, Expanded(h.name, env), ExpandSpec(h.spec, env))
  }

  function Problems(h: Harness, keys: seq<string>, env: Env, parse: string -> Option<int>): seq<Problem>
    requires Enumerates(keys, h.spec.sandbox.env)
  {
    var s := h.spec;
    NameProblems(h.name, env) + TargetProblems(s.target, env) + InferenceProblems(s.inference, env, parse)
    + SandboxProblems(s.sandbox, keys, env) + AgentProblems(s.agent, env) + SourceProblems(s.source, env)
    + PayloadProblems(s.payloads, env, |s.payloads|) + OutputProblems(s.outputs, env, |s.outputs|)
  }

  function Outcome(h: Harness, keys: seq<string>, env: Env, parse: string -> Option<int>): Result<Harness, seq<Problem>>
    requires Enumerates(keys, h.spec.sandbox.env)
  {
    var problems := Problems(h, keys, env, parse);
    if problems == [] then Ok(ExpandHarness(h, env)) else Err(problems)
  }
}
