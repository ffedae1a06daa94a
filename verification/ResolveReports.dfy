// The error of a rejected workflow: every missing variable of every field is
// reported with its field, and no other is.
module ResolveReports {
  import opened Strings
  import opened Paths
  import opened Schema
  import Expand
  import opened OutputPaths
  import opened Resolve
  import opened ResolveProofs

  /** How a missing variable of a field is reported. */
  function Report(name: string, f: Field): Problem {
    if name == PROTECTED then ProtectedVariable(f) else UnresolvedVariable(name, f)
  }

  lemma FieldReports(f: Field, raw: string, env: Env)
    ensures forall p :: p in FieldProblems(f, raw, env) <==>
      exists name :: name in Unresolved(raw, env) && p == Report(name, f)
  {
    hide Unresolved;
    var names, problems := Unresolved(raw, env), FieldProblems(f, raw, env);
    assert |problems| == |names| && forall i :: 0 <= i < |names| ==> problems[i] == Report(names[i], f);
    forall name | name in names ensures Report(name, f) in problems {
      var i :| 0 <= i < |names| && names[i] == name;
      assert problems[i] == Report(name, f);
    }
    forall p | p in problems ensures exists name :: name in names && p == Report(name, f) {
      var i :| 0 <= i < |problems| && problems[i] == p;
      assert names[i] in names;
    }
  }

  // ------------------------------------------------------ nothing is lost

  lemma {:induction false} ProviderReported(raw: seq<string>, env: Env, n: nat, i: nat)
    requires i < n <= |raw|
    ensures forall p :: p in FieldProblems(ProviderAt(i), raw[i], env) ==> p in ProviderProblems(raw, env, n)
  {
    hide FieldProblems, Expanded;
    if i < n - 1 {
      ProviderReported(raw, env, n - 1, i);
    }
  }

  lemma {:induction false} EnvReported(raw: map<string, string>, keys: seq<string>, env: Env, n: nat, i: nat)
    requires i < n <= |keys| && forall key :: key in keys ==> key in raw
    ensures forall p :: p in FieldProblems(EnvOf(keys[i]), raw[keys[i]], env) ==> p in EnvProblems(raw, keys, env, n)
  {
    hide FieldProblems, Expanded;
    if i < n - 1 {
      EnvReported(raw, keys, env, n - 1, i);
    }
  }

  lemma {:induction false} ArgReported(raw: seq<string>, env: Env, n: nat, i: nat)
    requires i < n <= |raw|
    ensures forall p :: p in FieldProblems(ArgAt(i), raw[i], env) ==> p in ArgProblems(raw, env, n)
  {
    hide FieldProblems, Expanded;
    if i < n - 1 {
      ArgReported(raw, env, n - 1, i);
    }
  }

  lemma PayloadStep(raw: seq<Payload>, env: Env, n: nat)
    requires 0 < n <= |raw|
    ensures forall p :: p in PayloadProblems(raw, env, n) <==>
      || p in PayloadProblems(raw, env, n - 1)
      || p in PayloadVariables(raw[n - 1], n - 1, env)
      || p in PayloadChecks(ExpandPayload(raw[n - 1], env), n - 1)
  {
    hide PayloadVariables, PayloadChecks, ExpandPayload;
  }

  lemma {:induction false} PayloadReported(raw: seq<Payload>, env: Env, n: nat, i: nat)
    requires i < n <= |raw|
    ensures forall p :: p in PayloadVariables(raw[i], i, env) ==> p in PayloadProblems(raw, env, n)
  {
    hide PayloadVariables, PayloadChecks, ExpandPayload, PayloadProblems;
    PayloadStep(raw, env, n);
    if i < n - 1 {
      PayloadReported(raw, env, n - 1, i);
    }
  }

  lemma {:induction false} OutputReported(raw: seq<Output>, env: Env, n: nat, i: nat)
    requires i < n <= |raw|
    ensures forall p :: p in FieldProblems(OutputSource(i), raw[i].source, env) ==> p in OutputProblems(raw, env, n)
    ensures forall p :: p in FieldProblems(OutputDestination(i), raw[i].destination, env) ==>
      p in OutputProblems(raw, env, n)
  {
    hide FieldProblems, OutputChecks;
    if i < n - 1 {
      OutputReported(raw, env, n - 1, i);
    }
  }

  predicate TargetField(f: Field) {
    f.Gateway? || f.Workspace? || f.Endpoint? || f.Issuer? || f.ClientId? || f.Audience?
  }

  predicate InferenceField(f: Field) {
    f.Route? || f.InferenceProvider? || f.Model? || f.Timeout?
  }

  predicate SandboxField(f: Field) {
    f.Image? || f.PolicyFile? || f.ProviderAt? || f.EnvOf?
  }

  predicate SourceField(f: Field) {
    f.Repo? || f.SourceRef? || f.SourceDestination? || f.Submodules?
  }

  lemma TargetReported(h: Harness, env: Env, f: Field)
    requires TargetField(f) && FieldText(h, f).Some?
    ensures forall p :: p in FieldProblems(f, FieldText(h, f).value, env) ==> p in TargetProblems(h.spec.target, env)
  {
    hide FieldProblems, Expanded, OidcProblems;
  }

  lemma InferenceReported(h: Harness, env: Env, parse: string -> Option<int>, f: Field)
    requires InferenceField(f) && FieldText(h, f).Some?
    ensures forall p :: p in FieldProblems(f, FieldText(h, f).value, env) ==>
      p in InferenceProblems(h.spec.inference, env, parse)
  {
    hide FieldProblems, Expanded, InferenceChecks, IsRouteName;
  }

  lemma SandboxReported(h: Harness, keys: seq<string>, env: Env, f: Field)
    requires SandboxField(f) && FieldText(h, f).Some? && Enumerates(keys, h.spec.sandbox.env)
    ensures forall p :: p in FieldProblems(f, FieldText(h, f).value, env) ==>
      p in SandboxProblems(h.spec.sandbox, keys, env)
  {
    hide FieldProblems, Expanded, ProviderProblems, EnvProblems;
    var s := h.spec.sandbox;
    if f.ProviderAt? {
      ProviderReported(s.providers, env, |s.providers|, f.i);
    } else if f.EnvOf? {
      assert f.key in keys;
      var i :| 0 <= i < |keys| && keys[i] == f.key;
      EnvReported(s.env, keys, env, |keys|, i);
    }
  }

  lemma SourceReported(h: Harness, env: Env, f: Field)
    requires SourceField(f) && FieldText(h, f).Some?
    ensures forall p :: p in FieldProblems(f, FieldText(h, f).value, env) ==> p in SourceProblems(h.spec.source, env)
  {
    hide FieldProblems, Expanded, HasTraversal;
  }

  lemma ListsReported(h: Harness, env: Env, f: Field)
    requires FieldText(h, f).Some?
    ensures f.ArgAt? || f.AgentType? ==> forall p :: p in FieldProblems(f, FieldText(h, f).value, env) ==>
      p in AgentProblems(h.spec.agent, env)
    ensures f.PayloadSource? || f.PayloadContent? || f.PayloadDestination? ==>
      forall p :: p in FieldProblems(f, FieldText(h, f).value, env) ==>
        p in PayloadProblems(h.spec.payloads, env, |h.spec.payloads|)
    ensures f.OutputSource? || f.OutputDestination? ==>
      forall p :: p in FieldProblems(f, FieldText(h, f).value, env) ==>
        p in OutputProblems(h.spec.outputs, env, |h.spec.outputs|)
  {
    hide FieldProblems, Expanded, ArgProblems, PayloadProblems, OutputProblems;
    match f
    case ArgAt(i) => ArgReported(h.spec.agent.args, env, |h.spec.agent.args|, i);
    case PayloadSource(i) => PayloadReported(h.spec.payloads, env, |h.spec.payloads|, i);
    case PayloadContent(i) => PayloadReported(h.spec.payloads, env, |h.spec.payloads|, i);
    case PayloadDestination(i) => PayloadReported(h.spec.payloads, env, |h.spec.payloads|, i);
    case OutputSource(i) => OutputReported(h.spec.outputs, env, |h.spec.outputs|, i);
    case OutputDestination(i) => OutputReported(h.spec.outputs, env, |h.spec.outputs|, i);
    case _ =>
  }

  lemma FieldIsReported(h: Harness, keys: seq<string>, env: Env, parse: string -> Option<int>, f: Field)
    requires Enumerates(keys, h.spec.sandbox.env) && FieldText(h, f).Some?
    ensures forall p :: p in FieldProblems(f, FieldText(h, f).value, env) ==> p in Problems(h, keys, env, parse)
  {
    hide FieldProblems, Expanded, TargetProblems, InferenceProblems, SandboxProblems, AgentProblems, SourceProblems,
      PayloadProblems, OutputProblems, FieldText, Enumerates;
    if TargetField(f) {
      TargetReported(h, env, f);
    } else if InferenceField(f) {
      InferenceReported(h, env, parse, f);
    } else if SandboxField(f) {
      SandboxReported(h, keys, env, f);
    } else if SourceField(f) {
      SourceReported(h, env, f);
    } else if f.NameField? {
      NameText(h);
    } else {
      ListsReported(h, env, f);
    }
  }

  lemma NameText(h: Harness)
    ensures FieldText(h, NameField) == Some(h.name)
  {}

  // ---------------------------------------------------- nothing is made up

  /** A variable is reported for a field that refers to it in vain. */
  predicate Explained(h: Harness, env: Env, p: Problem) {
    match p
    case ProtectedVariable(f) => FieldText(h, f).Some? && PROTECTED in Unresolved(FieldText(h, f).value, env)
    case UnresolvedVariable(name, f) =>
      FieldText(h, f).Some? && name != PROTECTED && name in Unresolved(FieldText(h, f).value, env)
    case _ => true
  }

  ghost predicate AllExplained(h: Harness, env: Env, problems: seq<Problem>) {
    forall p :: p in problems ==> Explained(h, env, p)
  }

  lemma FieldExplained(h: Harness, env: Env, f: Field, raw: string)
    requires FieldText(h, f) == Some(raw)
    ensures AllExplained(h, env, FieldProblems(f, raw, env))
  {
    hide FieldText, FieldProblems, Unresolved;
    FieldReports(f, raw, env);
  }

  lemma TargetTexts(h: Harness)
    ensures FieldText(h, Gateway) == Some(h.spec.target.gateway)
      && FieldText(h, Workspace) == Some(h.spec.target.workspace)
    ensures h.spec.target.registration.Some? ==>
      FieldText(h, Endpoint) == Some(h.spec.target.registration.value.endpoint)
  {}

  lemma OidcTexts(h: Harness)
    ensures HasOidc(h.spec.target) ==>
      var o := h.spec.target.registration.value.oidc.value;
      FieldText(h, Issuer) == Some(o.issuer) && FieldText(h, ClientId) == Some(o.clientId)
        && FieldText(h, Audience) == Some(o.audience)
  {}

  lemma OidcExplained(h: Harness, env: Env)
    requires HasOidc(h.spec.target)
    ensures var o := h.spec.target.registration.value.oidc.value;
      AllExplained(h, env, OidcVariables(o, env)) && AllExplained(h, env, OidcProblems(ExpandOidc(o, env)))
  {
    hide FieldProblems, Expanded, Unresolved, FieldText;
    var o := h.spec.target.registration.value.oidc.value;
    OidcTexts(h);
    FieldExplained(h, env, Issuer, o.issuer);
    FieldExplained(h, env, ClientId, o.clientId);
    FieldExplained(h, env, Audience, o.audience);
  }

  lemma TargetExplained(h: Harness, env: Env)
    ensures AllExplained(h, env, TargetProblems(h.spec.target, env))
  {
    hide FieldProblems, Expanded, Unresolved, FieldText, OidcVariables, OidcProblems, ExpandOidc;
    var t := h.spec.target;
    TargetTexts(h);
    FieldExplained(h, env, Gateway, t.gateway);
    FieldExplained(h, env, Workspace, t.workspace);
    if t.registration.Some? {
      FieldExplained(h, env, Endpoint, t.registration.value.endpoint);
      if t.registration.value.oidc.Some? {
        OidcExplained(h, env);
      }
    }
  }

  lemma NameAndInferenceExplained(h: Harness, env: Env, parse: string -> Option<int>)
    ensures AllExplained(h, env, NameProblems(h.name, env))
    ensures AllExplained(h, env, InferenceProblems(h.spec.inference, env, parse))
  {
    hide FieldProblems, Expanded, Unresolved, IsRouteName, TimeoutSecs;
    var inf := h.spec.inference;
    FieldExplained(h, env, NameField, h.name);
    FieldExplained(h, env, Route, inf.route);
    FieldExplained(h, env, InferenceProvider, inf.provider);
    FieldExplained(h, env, Model, inf.model);
    FieldExplained(h, env, Timeout, inf.timeout);
    hide FieldText;
  }

  lemma SourceExplained(h: Harness, env: Env)
    ensures AllExplained(h, env, SourceProblems(h.spec.source, env))
  {
    hide FieldProblems, Expanded, Unresolved, HasTraversal;
    var s := h.spec.source;
    FieldExplained(h, env, Repo, s.repo);
    FieldExplained(h, env, SourceRef, s.ref);
    FieldExplained(h, env, SourceDestination, s.destination);
    FieldExplained(h, env, Submodules, s.submodules);
    hide FieldText;
  }

  lemma {:induction false} ProvidersExplained(h: Harness, env: Env, n: nat)
    requires n <= |h.spec.sandbox.providers|
    ensures AllExplained(h, env, ProviderProblems(h.spec.sandbox.providers, env, n))
  {
    hide FieldProblems, Expanded, Unresolved;
    if n > 0 {
      ProvidersExplained(h, env, n - 1);
      FieldExplained(h, env, ProviderAt(n - 1), h.spec.sandbox.providers[n - 1]);
    }
    hide FieldText;
  }

  lemma {:induction false} EnvExplained(h: Harness, keys: seq<string>, env: Env, n: nat)
    requires Enumerates(keys, h.spec.sandbox.env) && n <= |keys|
    ensures AllExplained(h, env, EnvProblems(h.spec.sandbox.env, keys, env, n))
  {
    hide FieldProblems, Expanded, Unresolved;
    if n > 0 {
      EnvExplained(h, keys, env, n - 1);
      assert keys[n - 1] in keys;
      FieldExplained(h, env, EnvOf(keys[n - 1]), h.spec.sandbox.env[keys[n - 1]]);
    }
    hide FieldText;
  }

  lemma SandboxExplained(h: Harness, keys: seq<string>, env: Env)
    requires Enumerates(keys, h.spec.sandbox.env)
    ensures AllExplained(h, env, SandboxProblems(h.spec.sandbox, keys, env))
  {
    hide FieldProblems, Expanded, Unresolved, ProviderProblems, EnvProblems;
    var s := h.spec.sandbox;
    FieldExplained(h, env, Image, s.image);
    if s.policy.Some? {
      FieldExplained(h, env, PolicyFile, s.policy.value.file);
    }
    ProvidersExplained(h, env, |s.providers|);
    EnvExplained(h, keys, env, |keys|);
    hide FieldText;
  }

  lemma {:induction false} ArgsExplained(h: Harness, env: Env, n: nat)
    requires n <= |h.spec.agent.args|
    ensures AllExplained(h, env, ArgProblems(h.spec.agent.args, env, n))
  {
    hide FieldProblems, Expanded, Unresolved;
    if n > 0 {
      ArgsExplained(h, env, n - 1);
      FieldExplained(h, env, ArgAt(n - 1), h.spec.agent.args[n - 1]);
    }
    hide FieldText;
  }

  lemma PayloadExplained(h: Harness, env: Env, i: nat)
    requires i < |h.spec.payloads|
    ensures AllExplained(h, env, PayloadVariables(h.spec.payloads[i], i, env))
    ensures AllExplained(h, env, PayloadChecks(ExpandPayload(h.spec.payloads[i], env), i))
  {
    hide FieldProblems, Expanded, Unresolved, HasTraversal;
    var p := h.spec.payloads[i];
    FieldExplained(h, env, PayloadSource(i), p.source);
    FieldExplained(h, env, PayloadContent(i), p.content);
    FieldExplained(h, env, PayloadDestination(i), p.destination);
    hide FieldText;
  }

  lemma OnePayloadMore(h: Harness, env: Env, n: nat)
    requires 0 < n <= |h.spec.payloads| && AllExplained(h, env, PayloadProblems(h.spec.payloads, env, n - 1))
    ensures AllExplained(h, env, PayloadProblems(h.spec.payloads, env, n))
  {
    hide PayloadVariables, PayloadChecks, ExpandPayload, PayloadProblems, Explained;
    PayloadExplained(h, env, n - 1);
    PayloadStep(h.spec.payloads, env, n);
  }

  lemma {:induction false} PayloadsExplained(h: Harness, env: Env, n: nat)
    requires n <= |h.spec.payloads|
    ensures AllExplained(h, env, PayloadProblems(h.spec.payloads, env, n))
  {
    hide PayloadVariables, PayloadChecks, ExpandPayload, Explained;
    if n > 0 {
      PayloadsExplained(h, env, n - 1);
      OnePayloadMore(h, env, n);
    }
  }

  lemma OutputExplained(h: Harness, env: Env, i: nat)
    requires i < |h.spec.outputs|
    ensures AllExplained(h, env, FieldProblems(OutputSource(i), h.spec.outputs[i].source, env))
    ensures AllExplained(h, env, FieldProblems(OutputDestination(i), h.spec.outputs[i].destination, env))
  {
    hide FieldProblems, Expanded, Unresolved;
    FieldExplained(h, env, OutputSource(i), h.spec.outputs[i].source);
    FieldExplained(h, env, OutputDestination(i), h.spec.outputs[i].destination);
  }

  lemma OutputChecksExplained(h: Harness, env: Env, i: nat)
    requires i < |h.spec.outputs|
    ensures AllExplained(h, env, OutputChecks(h.spec.outputs, env, i))
  {
    hide FieldText, Unresolved, Expanded, OutputSourceFault, OutputDestinationFault, Clean, Claims, FirstClaim;
  }

  lemma {:induction false} OutputsExplained(h: Harness, env: Env, n: nat)
    requires n <= |h.spec.outputs|
    ensures AllExplained(h, env, OutputProblems(h.spec.outputs, env, n))
  {
    hide FieldProblems, OutputChecks, Explained;
    if n > 0 {
      OutputsExplained(h, env, n - 1);
      OutputExplained(h, env, n - 1);
      OutputChecksExplained(h, env, n - 1);
    }
  }

  lemma ProblemsExplained(h: Harness, keys: seq<string>, env: Env, parse: string -> Option<int>)
    requires Enumerates(keys, h.spec.sandbox.env)
    ensures AllExplained(h, env, Problems(h, keys, env, parse))
  {
    hide FieldProblems, NameProblems, TargetProblems, InferenceProblems, SandboxProblems, ArgProblems, SourceProblems,
      PayloadProblems, OutputProblems, Explained, Enumerates, Unresolved, Expanded;
    TargetExplained(h, env);
    NameAndInferenceExplained(h, env, parse);
    SandboxExplained(h, keys, env);
    FieldExplained(h, env, AgentType, h.spec.agent.kind);
    ArgsExplained(h, env, |h.spec.agent.args|);
    SourceExplained(h, env);
    PayloadsExplained(h, env, |h.spec.payloads|);
    OutputsExplained(h, env, |h.spec.outputs|);
    hide FieldText;
  }

  /** The error of Resolve names a variable for a field exactly when that field refers
      to it and it has no value; the protected variable is reported as such. */
  lemma MissingVariablesAreNamed(h: Harness, keys: seq<string>, env: Env, parse: string -> Option<int>, f: Field,
                                 name: string)
    requires Enumerates(keys, h.spec.sandbox.env)
    ensures Report(name, f) in Problems(h, keys, env, parse) <==>
      && FieldText(h, f).Some?
      && Expand.Ref(name) in Expand.Tokenise(FieldText(h, f).value, 0)
      && (name == PROTECTED || Expand.Getenv(env, name) == "")
  {
    hide Problems, FieldText, FieldProblems, Expand.Tokenise, Enumerates, Expand.Getenv;
    ProblemsExplained(h, keys, env, parse);
    if FieldText(h, f).Some? {
      Expand.MissingMembers(Expand.Tokenise(FieldText(h, f).value, 0), Guarded(env), name);
      FieldReports(f, FieldText(h, f).value, env);
      FieldIsReported(h, keys, env, parse, f);
    }
  }
}
