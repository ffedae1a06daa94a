// What an accepted workflow is, and what the protected variable cannot do.
module ResolveProofs {
  import opened Strings
  import opened Paths
  import opened Schema
  import Expand
  import opened OutputPaths
  import opened Resolve

  /** The text a field of the document holds before interpolation. */
  function FieldText(h: Harness, f: Field): Option<string> {
    var s := h.spec;
    match f
    case NameField => Some(h.name)
    case Gateway => Some(s.target.gateway)
    case Workspace => Some(s.target.workspace)
    case Endpoint => if s.target.registration.Some? then Some(s.target.registration.value.endpoint) else None
    case Issuer => if HasOidc(s.target) then Some(s.target.registration.value.oidc.value.issuer) else None
    case ClientId => if HasOidc(s.target) then Some(s.target.registration.value.oidc.value.clientId) else None
    case Audience => if HasOidc(s.target) then Some(s.target.registration.value.oidc.value.audience) else None
    case Route => Some(s.inference.route)
    case InferenceProvider => Some(s.inference.provider)
    case Model => Some(s.inference.model)
    case Timeout => Some(s.inference.timeout)
    case Image => Some(s.sandbox.image)
    case PolicyFile => if s.sandbox.policy.Some? then Some(s.sandbox.policy.value.file) else None
    case ProviderAt(i) => if i < |s.sandbox.providers| then Some(s.sandbox.providers[i]) else None
    case EnvOf(key) => if key in s.sandbox.env then Some(s.sandbox.env[key]) else None
    case AgentType => Some(s.agent.kind)
    case ArgAt(i) => if i < |s.agent.args| then Some(s.agent.args[i]) else None
    case Repo => Some(s.source.repo)
    case SourceRef => Some(s.source.ref)
    case SourceDestination => Some(s.source.destination)
    case Submodules => Some(s.source.submodules)
    case PayloadSource(i) => if i < |s.payloads| then Some(s.payloads[i].source) else None
    case PayloadContent(i) => if i < |s.payloads| then Some(s.payloads[i].content) else None
    case PayloadDestination(i) => if i < |s.payloads| then Some(s.payloads[i].destination) else None
    case OutputSource(i) => if i < |s.outputs| then Some(s.outputs[i].source) else None
    case OutputDestination(i) => if i < |s.outputs| then Some(s.outputs[i].destination) else None
  }

  predicate HasOidc(t: Target) {
    t.registration.Some? && t.registration.value.oidc.Some?
  }

  // --------------------------------------------------------- acceptance

  predicate RegistrationSound(r: Registration) {
    && r.endpoint != "" && r.oidc.Some?
    && r.oidc.value.issuer != "" && r.oidc.value.clientId != "" && r.oidc.value.audience != ""
  }

  predicate TargetSound(t: Target) {
    t.registration.Some? ==> RegistrationSound(t.registration.value)
  }

  predicate InferenceSound(inf: Inference, parse: string -> Option<int>) {
    && (inf.route != "" ==> IsRouteName(inf.route))
    && TimeoutSecs(inf.timeout, parse).Ok?
    && (inf != Inference("", "", "", "", inf.verify) ==> inf.provider != "" && inf.model != "")
  }

  /** A destination without "..", and exactly one of source and content. */
  predicate PayloadSound(p: Payload) {
    && p.destination != "" && !HasTraversal(p.destination)
    && (p.source != "" <==> p.content == "")
  }

  predicate OutputSound(o: Output, env: Env) {
    && OutputSourceFault(Expanded(o.source, env)).None?
    && OutputDestinationFault(Expanded(o.destination, env)).None?
  }

  predicate OutputsSound(outputs: seq<Output>, env: Env) {
    && (forall i :: 0 <= i < |outputs| ==> OutputSound(outputs[i], env))
    && (forall i, j :: 0 <= i < j < |outputs| ==>
          Clean(Expanded(outputs[i].destination, env)) != Clean(Expanded(outputs[j].destination, env)))
  }

  ghost predicate EveryFieldResolves(h: Harness, env: Env) {
    forall f :: FieldText(h, f).Some? ==> Unresolved(FieldText(h, f).value, env) == []
  }

  /** Every reference in every field has a value, and the values fit together. */
  ghost predicate Acceptable(h: Harness, env: Env, parse: string -> Option<int>) {
    && EveryFieldResolves(h, env)
    && var r := ExpandHarness(h, env);
       && r.name != ""
       && TargetSound(r.spec.target)
       && InferenceSound(r.spec.inference, parse)
       && "" !in r.spec.sandbox.providers
       && !HasTraversal(r.spec.source.destination)
       && (forall i :: 0 <= i < |r.spec.payloads| ==> PayloadSound(r.spec.payloads[i]))
       && OutputsSound(h.spec.outputs, env)
  }

  predicate Clear(raw: string, env: Env) {
    Unresolved(raw, env) == []
  }

  predicate OidcClear(o: OIDC, env: Env) {
    Clear(o.issuer, env) && Clear(o.clientId, env) && Clear(o.audience, env)
  }

  predicate TargetClear(t: Target, env: Env) {
    && Clear(t.gateway, env) && Clear(t.workspace, env)
    && (t.registration.Some? ==>
          && Clear(t.registration.value.endpoint, env)
          && (t.registration.value.oidc.Some? ==> OidcClear(t.registration.value.oidc.value, env)))
  }

  predicate InferenceClear(inf: Inference, env: Env) {
    Clear(inf.route, env) && Clear(inf.provider, env) && Clear(inf.model, env) && Clear(inf.timeout, env)
  }

  predicate AllClear(raw: seq<string>, env: Env) {
    forall i :: 0 <= i < |raw| ==> Clear(raw[i], env)
  }

  predicate SandboxClear(s: Sandbox, env: Env) {
    && Clear(s.image, env)
    && (s.policy.Some? ==> Clear(s.policy.value.file, env))
    && AllClear(s.providers, env)
    && (forall key :: key in s.env ==> Clear(s.env[key], env))
  }

  predicate SourceClear(s: Source, env: Env) {
    Clear(s.repo, env) && Clear(s.ref, env) && Clear(s.destination, env) && Clear(s.submodules, env)
  }

  predicate PayloadClear(p: Payload, env: Env) {
    Clear(p.source, env) && Clear(p.content, env) && Clear(p.destination, env)
  }

  predicate OutputClear(o: Output, env: Env) {
    Clear(o.source, env) && Clear(o.destination, env)
  }

  predicate SpecClear(s: Spec, env: Env) {
    && TargetClear(s.target, env) && InferenceClear(s.inference, env) && SandboxClear(s.sandbox, env)
    && Clear(s.agent.kind, env) && AllClear(s.agent.args, env) && SourceClear(s.source, env)
    && (forall i :: 0 <= i < |s.payloads| ==> PayloadClear(s.payloads[i], env))
    && (forall i :: 0 <= i < |s.outputs| ==> OutputClear(s.outputs[i], env))
  }

  lemma TargetFields(h: Harness, env: Env)
    requires EveryFieldResolves(h, env)
    ensures TargetClear(h.spec.target, env)
  {
    hide Unresolved;
    var t := h.spec.target;
    assert FieldText(h, Gateway).Some? && FieldText(h, Workspace).Some?;
    if t.registration.Some? {
      assert FieldText(h, Endpoint).Some?;
      if t.registration.value.oidc.Some? {
        assert FieldText(h, Issuer).Some? && FieldText(h, ClientId).Some? && FieldText(h, Audience).Some?;
      }
    }
  }

  lemma InferenceFields(h: Harness, env: Env)
    requires EveryFieldResolves(h, env)
    ensures Clear(h.name, env) && InferenceClear(h.spec.inference, env)
  {
    hide Unresolved;
    assert FieldText(h, NameField).Some?;
    assert FieldText(h, Route).Some? && FieldText(h, InferenceProvider).Some?;
    assert FieldText(h, Model).Some? && FieldText(h, Timeout).Some?;
  }

  lemma SourceFields(h: Harness, env: Env)
    requires EveryFieldResolves(h, env)
    ensures SourceClear(h.spec.source, env)
  {
    hide Unresolved;
    assert FieldText(h, Repo).Some? && FieldText(h, SourceRef).Some?;
    assert FieldText(h, SourceDestination).Some? && FieldText(h, Submodules).Some?;
  }

  lemma SandboxFields(h: Harness, env: Env)
    requires EveryFieldResolves(h, env)
    ensures SandboxClear(h.spec.sandbox, env)
  {
    hide Unresolved;
    var s := h.spec.sandbox;
    assert FieldText(h, Image).Some?;
    assert s.policy.Some? ==> FieldText(h, PolicyFile).Some?;
    assert forall i: nat :: i < |s.providers| ==> FieldText(h, ProviderAt(i)) == Some(s.providers[i]);
    assert forall key :: key in s.env ==> FieldText(h, EnvOf(key)) == Some(s.env[key]);
  }

  lemma AgentFields(h: Harness, env: Env)
    requires EveryFieldResolves(h, env)
    ensures Clear(h.spec.agent.kind, env) && AllClear(h.spec.agent.args, env)
  {
    hide Unresolved;
    assert FieldText(h, AgentType).Some?;
    assert forall i: nat :: i < |h.spec.agent.args| ==> FieldText(h, ArgAt(i)) == Some(h.spec.agent.args[i]);
  }

  lemma PayloadFields(h: Harness, env: Env, i: nat)
    requires EveryFieldResolves(h, env) && i < |h.spec.payloads|
    ensures PayloadClear(h.spec.payloads[i], env)
  {
    hide Unresolved;
    assert FieldText(h, PayloadSource(i)).Some? && FieldText(h, PayloadContent(i)).Some?;
    assert FieldText(h, PayloadDestination(i)).Some?;
  }

  lemma OutputFields(h: Harness, env: Env, i: nat)
    requires EveryFieldResolves(h, env) && i < |h.spec.outputs|
    ensures OutputClear(h.spec.outputs[i], env)
  {
    hide Unresolved;
    assert FieldText(h, OutputSource(i)).Some? && FieldText(h, OutputDestination(i)).Some?;
  }

  lemma ClearDocument(h: Harness, env: Env)
    requires Clear(h.name, env) && SpecClear(h.spec, env)
    ensures EveryFieldResolves(h, env)
  {
    hide Unresolved;
  }

  lemma FieldsCoverTheDocument(h: Harness, env: Env)
    ensures EveryFieldResolves(h, env) <==> Clear(h.name, env) && SpecClear(h.spec, env)
  {
    hide FieldText, EveryFieldResolves, Clear, TargetClear, InferenceClear, SandboxClear, SourceClear, PayloadClear,
      OutputClear, AllClear;
    if EveryFieldResolves(h, env) {
      TargetFields(h, env);
      InferenceFields(h, env);
      SourceFields(h, env);
      SandboxFields(h, env);
      AgentFields(h, env);
      forall i | 0 <= i < |h.spec.payloads| ensures PayloadClear(h.spec.payloads[i], env) { PayloadFields(h, env, i); }
      forall i | 0 <= i < |h.spec.outputs| ensures OutputClear(h.spec.outputs[i], env) { OutputFields(h, env, i); }
    }
    if Clear(h.name, env) && SpecClear(h.spec, env) {
      ClearDocument(h, env);
    }
  }

  lemma FieldIsClear(field: Field, raw: string, env: Env)
    ensures FieldProblems(field, raw, env) == [] <==> Clear(raw, env)
  {
    hide Unresolved;
    assert |FieldProblems(field, raw, env)| == |Unresolved(raw, env)|;
  }

  lemma TargetSection(t: Target, env: Env)
    ensures TargetProblems(t, env) == [] <==> TargetClear(t, env) && TargetSound(ExpandTarget(t, env))
  {
    hide FieldProblems, Clear, Expanded;
    FieldIsClear(Gateway, t.gateway, env);
    FieldIsClear(Workspace, t.workspace, env);
    if t.registration.Some? {
      var r := t.registration.value;
      FieldIsClear(Endpoint, r.endpoint, env);
      if r.oidc.Some? {
        FieldIsClear(Issuer, r.oidc.value.issuer, env);
        FieldIsClear(ClientId, r.oidc.value.clientId, env);
        FieldIsClear(Audience, r.oidc.value.audience, env);
      }
    }
  }

  lemma InferenceSection(inf: Inference, env: Env, parse: string -> Option<int>)
    ensures InferenceProblems(inf, env, parse) == [] <==>
      InferenceClear(inf, env) && InferenceSound(ExpandInference(inf, env), parse)
  {
    hide FieldProblems, Clear, Expanded, IsRouteName, TimeoutSecs;
    FieldIsClear(Route, inf.route, env);
    FieldIsClear(InferenceProvider, inf.provider, env);
    FieldIsClear(Model, inf.model, env);
    FieldIsClear(Timeout, inf.timeout, env);
  }

  lemma {:induction false} ProvidersSection(raw: seq<string>, env: Env, n: nat)
    requires n <= |raw|
    ensures ProviderProblems(raw, env, n) == [] <==>
      forall i :: 0 <= i < n ==> Clear(raw[i], env) && Expanded(raw[i], env) != ""
  {
    hide FieldProblems, Clear, Expanded;
    if n > 0 {
      ProvidersSection(raw, env, n - 1);
      FieldIsClear(ProviderAt(n - 1), raw[n - 1], env);
    }
  }

  lemma {:induction false} EnvSection(raw: map<string, string>, keys: seq<string>, env: Env, n: nat)
    requires n <= |keys| && forall key :: key in keys ==> key in raw
    ensures EnvProblems(raw, keys, env, n) == [] <==> forall i :: 0 <= i < n ==> Clear(raw[keys[i]], env)
  {
    hide FieldProblems, Clear, Expanded;
    if n > 0 {
      EnvSection(raw, keys, env, n - 1);
      FieldIsClear(EnvOf(keys[n - 1]), raw[keys[n - 1]], env);
    }
  }

  lemma SandboxSection(s: Sandbox, keys: seq<string>, env: Env)
    requires Enumerates(keys, s.env)
    ensures SandboxProblems(s, keys, env) == [] <==> SandboxClear(s, env) && "" !in ExpandAll(s.providers, env)
  {
    hide FieldProblems, Clear, Expanded, ProviderProblems, EnvProblems;
    FieldIsClear(Image, s.image, env);
    if s.policy.Some? {
      FieldIsClear(PolicyFile, s.policy.value.file, env);
    }
    ProvidersSection(s.providers, env, |s.providers|);
    EnvSection(s.env, keys, env, |keys|);
    assert forall i :: 0 <= i < |s.providers| ==> ExpandAll(s.providers, env)[i] == Expanded(s.providers[i], env);
    assert (forall key :: key in s.env ==> Clear(s.env[key], env)) <==>
      forall i :: 0 <= i < |keys| ==> Clear(s.env[keys[i]], env) by {
      forall key | key in s.env ensures exists i :: 0 <= i < |keys| && keys[i] == key {
        assert key in keys;
      }
    }
  }

  lemma {:induction false} ArgsSection(raw: seq<string>, env: Env, n: nat)
    requires n <= |raw|
    ensures ArgProblems(raw, env, n) == [] <==> forall i :: 0 <= i < n ==> Clear(raw[i], env)
  {
    hide FieldProblems, Clear, Expanded;
    if n > 0 {
      ArgsSection(raw, env, n - 1);
      FieldIsClear(ArgAt(n - 1), raw[n - 1], env);
    }
  }

  lemma SourceSection(s: Source, env: Env)
    ensures SourceProblems(s, env) == [] <==> SourceClear(s, env) && !HasTraversal(Expanded(s.destination, env))
  {
    hide FieldProblems, Clear, Expanded, HasTraversal;
    FieldIsClear(Repo, s.repo, env);
    FieldIsClear(SourceRef, s.ref, env);
    FieldIsClear(SourceDestination, s.destination, env);
    FieldIsClear(Submodules, s.submodules, env);
  }

  lemma PayloadIsSound(p: Payload, i: nat, env: Env)
    ensures PayloadVariables(p, i, env) == [] <==> PayloadClear(p, env)
    ensures PayloadChecks(ExpandPayload(p, env), i) == [] <==> PayloadSound(ExpandPayload(p, env))
  {
    hide FieldProblems, Clear, Expanded, HasTraversal;
    FieldIsClear(PayloadSource(i), p.source, env);
    FieldIsClear(PayloadContent(i), p.content, env);
    FieldIsClear(PayloadDestination(i), p.destination, env);
  }

  lemma {:induction false} PayloadsSection(raw: seq<Payload>, env: Env, n: nat)
    requires n <= |raw|
    ensures PayloadProblems(raw, env, n) == []
       <==> forall i :: 0 <= i < n ==> PayloadClear(raw[i], env) && PayloadSound(ExpandPayload(raw[i], env))
  {
    hide PayloadVariables, PayloadChecks, PayloadClear, PayloadSound, ExpandPayload;
    if n > 0 {
      PayloadsSection(raw, env, n - 1);
      PayloadIsSound(raw[n - 1], n - 1, env);
    }
  }

  /** The checks of one output, given that the earlier ones are acceptable. */
  predicate OutputFits(raw: seq<Output>, env: Env, i: nat)
    requires i < |raw|
  {
    && OutputSound(raw[i], env)
    && forall k :: 0 <= k < i ==> Claim(raw[k], env) != Claim(raw[i], env)
  }

  lemma OutputIsSound(raw: seq<Output>, env: Env, i: nat)
    requires i < |raw|
    ensures OutputChecks(raw, env, i) == [] <==> OutputFits(raw, env, i)
  {
    hide Expanded, Clean, OutputSourceFault, OutputDestinationFault, FirstClaim;
    if OutputSound(raw[i], env) {
      var first := FirstClaim(Claims(raw, env), i, Clean(Expanded(raw[i].destination, env)));
      assert Claim(raw[i], env) == Some(Clean(Expanded(raw[i].destination, env)));
      assert first.Some? ==> Claim(raw[first.value], env) == Claim(raw[i], env);
      assert forall k :: 0 <= k < i ==> Claims(raw, env)[k] == Claim(raw[k], env);
    }
  }

  lemma {:induction false} OutputsSection(raw: seq<Output>, env: Env, n: nat)
    requires n <= |raw|
    ensures OutputProblems(raw, env, n) == [] <==>
      forall i :: 0 <= i < n ==> OutputClear(raw[i], env) && OutputFits(raw, env, i)
  {
    hide FieldProblems, OutputChecks, Clear, OutputFits;
    if n > 0 {
      OutputsSection(raw, env, n - 1);
      OutputIsSound(raw, env, n - 1);
      FieldIsClear(OutputSource(n - 1), raw[n - 1].source, env);
      FieldIsClear(OutputDestination(n - 1), raw[n - 1].destination, env);
    }
  }

  lemma OutputsFitTogether(raw: seq<Output>, env: Env)
    ensures OutputsSound(raw, env) <==> forall i :: 0 <= i < |raw| ==> OutputFits(raw, env, i)
  {
    hide Expanded, Clean, OutputSourceFault, OutputDestinationFault;
    if forall i :: 0 <= i < |raw| ==> OutputFits(raw, env, i) {
      forall i, j | 0 <= i < j < |raw|
        ensures Clean(Expanded(raw[i].destination, env)) != Clean(Expanded(raw[j].destination, env))
      {
        assert OutputFits(raw, env, i) && OutputFits(raw, env, j);
      }
      forall i | 0 <= i < |raw| ensures OutputSound(raw[i], env) {
        assert OutputFits(raw, env, i);
      }
    }
  }

  /** Resolve accepts exactly the acceptable documents, in whatever order the
      environment map is ranged over. */
  lemma ResolveAcceptsExactly(h: Harness, keys: seq<string>, env: Env, parse: string -> Option<int>)
    requires Enumerates(keys, h.spec.sandbox.env)
    ensures Outcome(h, keys, env, parse).Ok? <==> Acceptable(h, env, parse)
    ensures Outcome(h, keys, env, parse).Ok? ==> Outcome(h, keys, env, parse).value == ExpandHarness(h, env)
  {
    ProblemsByAcceptance(h, keys, env, parse);
  }

  lemma NameSection(raw: string, env: Env)
    ensures NameProblems(raw, env) == [] <==> Clear(raw, env) && Expanded(raw, env) != ""
  {
    hide FieldProblems, Clear, Expanded;
    FieldIsClear(NameField, raw, env);
  }

  lemma ProblemsByAcceptance(h: Harness, keys: seq<string>, env: Env, parse: string -> Option<int>)
    requires Enumerates(keys, h.spec.sandbox.env)
    ensures Problems(h, keys, env, parse) == [] <==> Acceptable(h, env, parse)
  {
    hide NameProblems, TargetProblems, InferenceProblems, SandboxProblems, FieldProblems, ArgProblems, SourceProblems,
      PayloadProblems, OutputProblems, Expanded, HasTraversal, Clear, TargetClear, InferenceClear, SandboxClear,
      SourceClear, PayloadClear, OutputClear, TargetSound, InferenceSound, PayloadSound, OutputsSound, OutputFits,
      ExpandTarget, ExpandInference, ExpandPayload, FieldText, EveryFieldResolves, Unresolved, Enumerates, ExpandMap;
    var s := h.spec;
    FieldsCoverTheDocument(h, env);
    NameSection(h.name, env);
    TargetSection(s.target, env);
    InferenceSection(s.inference, env, parse);
    SandboxSection(s.sandbox, keys, env);
    FieldIsClear(AgentType, s.agent.kind, env);
    ArgsSection(s.agent.args, env, |s.agent.args|);
    SourceSection(s.source, env);
    PayloadsSection(s.payloads, env, |s.payloads|);
    OutputsSection(s.outputs, env, |s.outputs|);
    OutputsFitTogether(s.outputs, env);
    assert forall i :: 0 <= i < |s.payloads| ==>
      ExpandPayloads(s.payloads, env)[i] == ExpandPayload(s.payloads[i], env);
  }

  /** What a field holds once it is resolved: its own text expanded, and for outputs
      cleaned. */
  function ResolvedText(f: Field, raw: string, env: Env): string {
    if f.OutputSource? || f.OutputDestination? then Clean(Expanded(raw, env)) else Expanded(raw, env)
  }

  /** The resolved document has the same fields, each the expansion of the same field of
      the input, and everything that is not text is kept. */
  lemma EveryFieldIsExpanded(h: Harness, env: Env, f: Field)
    ensures var r := ExpandHarness(h, env);
      && FieldText(r, f) == (if FieldText(h, f).Some? then Some(ResolvedText(f, FieldText(h, f).value, env)) else None)
      && r.version == h.version
      && r.spec.inference.verify == h.spec.inference.verify
      && r.spec.sandbox.keep == h.spec.sandbox.keep && r.spec.sandbox.tty == h.spec.sandbox.tty
      && forall i :: 0 <= i < |h.spec.outputs| ==> r.spec.outputs[i].required == h.spec.outputs[i].required
  {
    hide Expanded, Clean;
  }

  // ------------------------------------------------ the protected variable

  /** The environments agree everywhere except, perhaps, at the protected variable. */
  ghost predicate AgreeElsewhere(env: Env, other: Env) {
    forall key :: key != PROTECTED ==> (key in env <==> key in other) && (key in env ==> env[key] == other[key])
  }

  /** One field does not see the difference. */
  lemma SameField(f: Field, raw: string, env: Env, other: Env)
    requires AgreeElsewhere(env, other)
    ensures Expanded(raw, env) == Expanded(raw, other) && FieldProblems(f, raw, env) == FieldProblems(f, raw, other)
  {
    hide Expand.Tokenise;
    forall name ensures Guarded(env)(name) == Guarded(other)(name) {}
    Expand.LookupsAgree(Expand.Tokenise(raw, 0), Guarded(env), Guarded(other));
  }

  lemma SameTarget(t: Target, env: Env, other: Env)
    requires AgreeElsewhere(env, other)
    ensures ExpandTarget(t, env) == ExpandTarget(t, other) && TargetProblems(t, env) == TargetProblems(t, other)
  {
    hide Expanded, FieldProblems, AgreeElsewhere;
    SameField(Gateway, t.gateway, env, other);
    SameField(Workspace, t.workspace, env, other);
    if t.registration.Some? {
      SameField(Endpoint, t.registration.value.endpoint, env, other);
      if t.registration.value.oidc.Some? {
        var o := t.registration.value.oidc.value;
        SameField(Issuer, o.issuer, env, other);
        SameField(ClientId, o.clientId, env, other);
        SameField(Audience, o.audience, env, other);
      }
    }
  }

  lemma SameInference(inf: Inference, env: Env, other: Env, parse: string -> Option<int>)
    requires AgreeElsewhere(env, other)
    ensures ExpandInference(inf, env) == ExpandInference(inf, other)
    ensures InferenceProblems(inf, env, parse) == InferenceProblems(inf, other, parse)
  {
    hide Expanded, FieldProblems, AgreeElsewhere, InferenceChecks, IsRouteName;
    SameField(Route, inf.route, env, other);
    SameField(InferenceProvider, inf.provider, env, other);
    SameField(Model, inf.model, env, other);
    SameField(Timeout, inf.timeout, env, other);
  }

  lemma SameList(raw: seq<string>, env: Env, other: Env)
    requires AgreeElsewhere(env, other)
    ensures ExpandAll(raw, env) == ExpandAll(raw, other)
  {
    hide Expanded, FieldProblems, AgreeElsewhere;
    forall i | 0 <= i < |raw| ensures Expanded(raw[i], env) == Expanded(raw[i], other) {
      SameField(ArgAt(i), raw[i], env, other);
    }
  }

  lemma {:induction false} SameProviders(raw: seq<string>, env: Env, other: Env, n: nat)
    requires AgreeElsewhere(env, other) && n <= |raw|
    ensures ProviderProblems(raw, env, n) == ProviderProblems(raw, other, n)
  {
    hide Expanded, FieldProblems, AgreeElsewhere;
    if n > 0 {
      SameProviders(raw, env, other, n - 1);
      SameField(ProviderAt(n - 1), raw[n - 1], env, other);
    }
  }

  lemma {:induction false} SameEnv(raw: map<string, string>, keys: seq<string>, env: Env, other: Env, n: nat)
    requires AgreeElsewhere(env, other) && n <= |keys| && forall key :: key in keys ==> key in raw
    ensures EnvProblems(raw, keys, env, n) == EnvProblems(raw, keys, other, n)
  {
    hide Expanded, FieldProblems, AgreeElsewhere;
    if n > 0 {
      SameEnv(raw, keys, env, other, n - 1);
      SameField(EnvOf(keys[n - 1]), raw[keys[n - 1]], env, other);
    }
  }

  lemma SameMap(raw: map<string, string>, env: Env, other: Env)
    requires AgreeElsewhere(env, other)
    ensures ExpandMap(raw, env) == ExpandMap(raw, other)
  {
    hide Expanded, FieldProblems, AgreeElsewhere;
    forall key | key in raw ensures Expanded(raw[key], env) == Expanded(raw[key], other) {
      SameField(EnvOf(key), raw[key], env, other);
    }
  }

  lemma SameSandbox(s: Sandbox, keys: seq<string>, env: Env, other: Env)
    requires AgreeElsewhere(env, other) && Enumerates(keys, s.env)
    ensures ExpandSandbox(s, env) == ExpandSandbox(s, other)
      && SandboxProblems(s, keys, env) == SandboxProblems(s, keys, other)
  {
    hide Expanded, FieldProblems, AgreeElsewhere, ExpandAll, ExpandMap, ProviderProblems, EnvProblems;
    SameField(Image, s.image, env, other);
    if s.policy.Some? {
      SameField(PolicyFile, s.policy.value.file, env, other);
    }
    SameList(s.providers, env, other);
    SameProviders(s.providers, env, other, |s.providers|);
    SameMap(s.env, env, other);
    SameEnv(s.env, keys, env, other, |keys|);
  }

  lemma {:induction false} SameArgs(raw: seq<string>, env: Env, other: Env, n: nat)
    requires AgreeElsewhere(env, other) && n <= |raw|
    ensures ArgProblems(raw, env, n) == ArgProblems(raw, other, n)
  {
    hide Expanded, FieldProblems, AgreeElsewhere;
    if n > 0 {
      SameArgs(raw, env, other, n - 1);
      SameField(ArgAt(n - 1), raw[n - 1], env, other);
    }
  }

  lemma SameSource(s: Source, env: Env, other: Env)
    requires AgreeElsewhere(env, other)
    ensures ExpandSource(s, env) == ExpandSource(s, other) && SourceProblems(s, env) == SourceProblems(s, other)
  {
    hide Expanded, FieldProblems, AgreeElsewhere, HasTraversal;
    SameField(Repo, s.repo, env, other);
    SameField(SourceRef, s.ref, env, other);
    SameField(SourceDestination, s.destination, env, other);
    SameField(Submodules, s.submodules, env, other);
  }

  lemma SamePayload(p: Payload, i: nat, env: Env, other: Env)
    requires AgreeElsewhere(env, other)
    ensures ExpandPayload(p, env) == ExpandPayload(p, other)
      && PayloadVariables(p, i, env) == PayloadVariables(p, i, other)
  {
    hide Expanded, FieldProblems, AgreeElsewhere;
    SameField(PayloadSource(i), p.source, env, other);
    SameField(PayloadContent(i), p.content, env, other);
    SameField(PayloadDestination(i), p.destination, env, other);
  }

  lemma {:induction false} SamePayloads(raw: seq<Payload>, env: Env, other: Env, n: nat)
    requires AgreeElsewhere(env, other) && n <= |raw|
    ensures PayloadProblems(raw, env, n) == PayloadProblems(raw, other, n)
    ensures ExpandPayloads(raw, env) == ExpandPayloads(raw, other)
  {
    hide PayloadVariables, PayloadChecks, ExpandPayload, AgreeElsewhere;
    forall i | 0 <= i < |raw| ensures ExpandPayload(raw[i], env) == ExpandPayload(raw[i], other) {
      SamePayload(raw[i], i, env, other);
    }
    if n > 0 {
      SamePayloads(raw, env, other, n - 1);
      SamePayload(raw[n - 1], n - 1, env, other);
    }
  }

  lemma SameClaims(raw: seq<Output>, env: Env, other: Env)
    requires AgreeElsewhere(env, other)
    ensures Claims(raw, env) == Claims(raw, other) && ExpandOutputs(raw, env) == ExpandOutputs(raw, other)
  {
    hide Expanded, FieldProblems, AgreeElsewhere, Clean, OutputDestinationFault;
    forall i | 0 <= i < |raw|
      ensures Claim(raw[i], env) == Claim(raw[i], other) && ExpandOutput(raw[i], env) == ExpandOutput(raw[i], other)
    {
      SameField(OutputSource(i), raw[i].source, env, other);
      SameField(OutputDestination(i), raw[i].destination, env, other);
    }
  }

  lemma {:induction false} SameOutputs(raw: seq<Output>, env: Env, other: Env, n: nat)
    requires AgreeElsewhere(env, other) && n <= |raw|
    ensures OutputProblems(raw, env, n) == OutputProblems(raw, other, n)
  {
    hide Expanded, FieldProblems, AgreeElsewhere, Clean, OutputSourceFault, OutputDestinationFault, Claims, FirstClaim;
    if n > 0 {
      SameOutputs(raw, env, other, n - 1);
      SameClaims(raw, env, other);
      SameField(OutputSource(n - 1), raw[n - 1].source, env, other);
      SameField(OutputDestination(n - 1), raw[n - 1].destination, env, other);
    }
  }

  /** Two environments that differ at most at the protected variable resolve every
      document to the same outcome: the same document or the same problems. */
  lemma ProtectedIsInvisible(h: Harness, keys: seq<string>, env: Env, other: Env, parse: string -> Option<int>)
    requires Enumerates(keys, h.spec.sandbox.env) && AgreeElsewhere(env, other)
    ensures Outcome(h, keys, env, parse) == Outcome(h, keys, other, parse)
  {
    hide Expanded, FieldProblems, AgreeElsewhere, Enumerates, ExpandTarget, TargetProblems, ExpandInference,
      InferenceProblems, ExpandSandbox, SandboxProblems, ExpandAll, ArgProblems, ExpandSource, SourceProblems,
      ExpandPayloads, PayloadProblems, ExpandOutputs, OutputProblems;
    var s := h.spec;
    SameField(NameField, h.name, env, other);
    SameTarget(s.target, env, other);
    SameInference(s.inference, env, other, parse);
    SameSandbox(s.sandbox, keys, env, other);
    SameField(AgentType, s.agent.kind, env, other);
    SameList(s.agent.args, env, other);
    SameArgs(s.agent.args, env, other, |s.agent.args|);
    SameSource(s.source, env, other);
    SamePayloads(s.payloads, env, other, |s.payloads|);
    SameClaims(s.outputs, env, other);
    SameOutputs(s.outputs, env, other, |s.outputs|);
  }

  /** A document that refers to the protected variable in any field is rejected. */
  lemma ProtectedIsRejected(h: Harness, keys: seq<string>, env: Env, parse: string -> Option<int>, f: Field)
    requires Enumerates(keys, h.spec.sandbox.env)
    requires FieldText(h, f).Some? && Expand.Ref(PROTECTED) in Expand.Tokenise(FieldText(h, f).value, 0)
    ensures Outcome(h, keys, env, parse).Err?
  {
    hide Outcome, FieldText, Expand.Tokenise;
    ResolveAcceptsExactly(h, keys, env, parse);
    Expand.MissingMembers(Expand.Tokenise(FieldText(h, f).value, 0), Guarded(env), PROTECTED);
  }

  // ---------------------------------------- what later stages may rely on

  /** The document is fit for the stages after resolution. */
  ghost predicate Discharged(s: Spec) {
    && (forall p :: p in s.payloads ==> PayloadSound(p))
    && (forall o :: o in s.outputs ==>
          && OutputSourceFault(o.source).None? && Clean(o.source) == o.source
          && OutputDestinationFault(o.destination).None? && Clean(o.destination) == o.destination)
    && (forall i, j :: 0 <= i < j < |s.outputs| ==> s.outputs[i].destination != s.outputs[j].destination)
  }

  /** An accepted document comes out with every later path and payload check already
      met, on the cleaned paths it now holds. */
  lemma ResolveDischarges(h: Harness, keys: seq<string>, env: Env, parse: string -> Option<int>)
    requires Enumerates(keys, h.spec.sandbox.env)
    ensures Outcome(h, keys, env, parse).Ok? ==>
      Discharged(Outcome(h, keys, env, parse).value.spec) && Outcome(h, keys, env, parse).value.name != ""
  {
    hide Outcome, Problems, Expanded, Unresolved, FieldText, EveryFieldResolves, OutputSourceFault,
      OutputDestinationFault, Clean, TargetSound, InferenceSound, PayloadSound, HasTraversal;
    ResolveAcceptsExactly(h, keys, env, parse);
    if Acceptable(h, env, parse) {
      OutputsAreDischarged(h.spec.outputs, env);
    }
  }

  lemma OutputsAreDischarged(raw: seq<Output>, env: Env)
    requires OutputsSound(raw, env)
    ensures forall o :: o in ExpandOutputs(raw, env) ==>
      && OutputSourceFault(o.source).None? && Clean(o.source) == o.source
      && OutputDestinationFault(o.destination).None? && Clean(o.destination) == o.destination
  {
    hide Expanded, OutputSourceFault, OutputDestinationFault, Clean;
    var outputs := ExpandOutputs(raw, env);
    forall o | o in outputs
      ensures OutputSourceFault(o.source).None? && Clean(o.source) == o.source
      ensures OutputDestinationFault(o.destination).None? && Clean(o.destination) == o.destination
    {
      var i :| 0 <= i < |outputs| && outputs[i] == o;
      assert OutputSound(raw[i], env);
      CleanKeepsAcceptance(Expanded(raw[i].source, env), Expanded(raw[i].destination, env));
    }
  }
}
