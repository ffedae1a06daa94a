// loadWorkflow of cmd/workflow.go after resolution: target precedence, overrides and
// execution defaults are written into the one document that plan and apply share.
module Loading {
  import opened Strings
  import opened Schema
  import opened Expand
  import opened Planning

  const ENV_GATEWAY := "OPENSHELL_GATEWAY"
  const ENV_WORKSPACE := "OPENSHELL_WORKSPACE"
  const ENV_IMAGE := "HARNESS_OS_IMAGE"

  datatype Overrides = Overrides(name: string, agentType: string, forceTTY: bool)

  /** The flags, and the built-in image. */
  datatype Settings = Settings(gateway: string, workspace: string, overrides: Overrides, defaultImage: string)

  datatype Workflow = Workflow(desired: Harness, input: Harness, direct: Option<Registration>, baseDir: string)

  /** resolveField: flag, then environment, then configuration. */
  function ResolveField(flag: string, key: string, configured: string, env: Env): string {
    if flag != "" then flag else if Getenv(env, key) != "" then Getenv(env, key) else configured
  }

  /** resolveSandboxImage. */
  function ResolveSandboxImage(image: string, settings: Settings, env: Env): string {
    if Getenv(env, ENV_IMAGE) != "" then Getenv(env, ENV_IMAGE)
    else if image != "" then image
    else settings.defaultImage
  }

  /** runConfigured. */
  predicate RunConfigured(s: Spec) {
    || s.sandbox.image != "" || |s.sandbox.providers| > 0 || s.sandbox.policy.Some? || |s.sandbox.env| > 0
    || s.sandbox.tty || s.sandbox.keep
    || s.agent.kind != "" || s.source.repo != "" || |s.payloads| > 0 || |s.outputs| > 0
  }

  /** `value` is the first of the three that is given, and the last when none is. */
  predicate Precedence(value: string, first: string, second: string, third: string) {
    && (first != "" ==> value == first)
    && (first == "" && second != "" ==> value == second)
    && (first == "" && second == "" ==> value == third)
  }

  lemma ResolveFieldPrecedence(flag: string, key: string, configured: string, env: Env)
    ensures Precedence(ResolveField(flag, key, configured, env), flag, Getenv(env, key), configured)
  {}

  lemma ImagePrecedence(image: string, settings: Settings, env: Env)
    ensures Precedence(ResolveSandboxImage(image, settings, env), Getenv(env, ENV_IMAGE), image, settings.defaultImage)
    ensures settings.defaultImage != "" ==> ResolveSandboxImage(image, settings, env) != ""
  {}

  /** What loading does to a resolved document. Nothing but the target, name, agent
      type, terminal flag and image is touched; afterwards the test that decides
      whether to execute and the test that decides whether to plan a run agree, and a
      run always has an image. */
  predicate LoadedFrom(w: Workflow, resolved: Harness, settings: Settings, env: Env) {
    var s, d := resolved.spec, w.desired.spec;
    && (RunConfigured(d) <==> HasRunConfig(d))
    && (RunConfigured(d) <==> RunConfigured(s) || settings.overrides.agentType != "" || settings.overrides.forceTTY)
    && (RunConfigured(d) ==> d.sandbox.image != "")
    && (RunConfigured(d) ==>
          Precedence(d.sandbox.image, Getenv(env, ENV_IMAGE), s.sandbox.image, settings.defaultImage))
    && (!RunConfigured(d) ==> d.sandbox.image == s.sandbox.image)
    && d.inference == s.inference && d.source == s.source && d.payloads == s.payloads && d.outputs == s.outputs
    && d.target.registration == s.target.registration && d.agent.args == s.agent.args
    && d.sandbox.(image := "", tty := false) == s.sandbox.(image := "", tty := false)
    && d.sandbox.tty == (s.sandbox.tty || settings.overrides.forceTTY)
    && d.agent.kind == (if settings.overrides.agentType != "" then settings.overrides.agentType else s.agent.kind)
    && Precedence(d.target.gateway, settings.gateway, Getenv(env, ENV_GATEWAY), s.target.gateway)
    && Precedence(d.target.workspace, settings.workspace, Getenv(env, ENV_WORKSPACE), s.target.workspace)
    && w.desired.name == (if settings.overrides.name != "" then settings.overrides.name else resolved.name)
    && w.desired.version == resolved.version
    && w.direct == if s.target.registration.Some? && settings.gateway == "" && Getenv(env, ENV_GATEWAY) == ""
                   then s.target.registration else None
  }

  method ApplyOverrides(h: Harness, o: Overrides) returns (r: Harness)
    ensures r.name == (if o.name != "" then o.name else h.name) && r.version == h.version
    ensures r.spec == h.spec.(
      agent := h.spec.agent.(kind := if o.agentType != "" then o.agentType else h.spec.agent.kind),
      sandbox := h.spec.sandbox.(tty := h.spec.sandbox.tty || o.forceTTY))
  {
    r := h;
    if o.name != "" {
      r := r.(name := o.name);
    }
    if o.agentType != "" {
      r := r.(spec := r.spec.(agent := r.spec.agent.(kind := o.agentType)));
    }
    if o.forceTTY {
      r := r.(spec := r.spec.(sandbox := r.spec.sandbox.(tty := true)));
    }
  }

  method DirectConnection(t: Target, externalGateway: bool) returns (direct: Option<Registration>)
    ensures direct == if t.registration.Some? && !externalGateway then t.registration else None
  {
    direct := None;
    if t.registration.Some? && !externalGateway {
      direct := t.registration;
    }
  }

  /** The statements of loadWorkflow that follow Resolve. */
  method LoadWorkflow(resolved: Harness, input: Harness, settings: Settings, env: Env, baseDir: string)
    returns (w: Workflow)
    requires settings.defaultImage != ""
    ensures LoadedFrom(w, resolved, settings, env) && w.input == input && w.baseDir == baseDir
  {
    hide Getenv, ResolveField, ResolveSandboxImage, Precedence;
    ResolveFieldPrecedence(settings.gateway, ENV_GATEWAY, resolved.spec.target.gateway, env);
    ResolveFieldPrecedence(settings.workspace, ENV_WORKSPACE, resolved.spec.target.workspace, env);
    ImagePrecedence(resolved.spec.sandbox.image, settings, env);
    var spec := resolved.spec;
    var gateway := ResolveField(settings.gateway, ENV_GATEWAY, spec.target.gateway, env);
    var workspace := ResolveField(settings.workspace, ENV_WORKSPACE, spec.target.workspace, env);
    var externalGateway := settings.gateway != "" || Getenv(env, ENV_GATEWAY) != "";
    var direct := DirectConnection(spec.target, externalGateway);
    spec := spec.(target := spec.target.(gateway := gateway, workspace := workspace));
    var desired := ApplyOverrides(resolved.(spec := spec), settings.overrides);
    if RunConfigured(desired.spec) {
      var image := ResolveSandboxImage(desired.spec.sandbox.image, settings, env);
      desired := desired.(spec := desired.spec.(sandbox := desired.spec.sandbox.(image := image)));
    }
    w := Workflow(desired, input, direct, baseDir);
  }

  /** The document sets something about the sandbox that shows in no plan. */
  predicate HiddenSettings(s: Spec) {
    s.sandbox.providers != [] || s.sandbox.policy.Some? || s.sandbox.env != map[] || s.sandbox.tty || s.sandbox.keep
  }

  /** Which documents the two tests disagree on before the image default: exactly those
      that would be executed yet show no run, because all they set about a run is a
      provider, a policy, a variable, the terminal or the keep flag. There are such
      documents, and with any image the tests agree. */
  lemma TestsDisagreeExactly(s: Spec, image: string)
    ensures (RunConfigured(s) <==> !HasRunConfig(s)) <==> HiddenSettings(s) && !HasRunConfig(s)
    ensures HasRunConfig(s) ==> RunConfigured(s)
    ensures image != "" ==> var d := s.(sandbox := s.sandbox.(image := image)); RunConfigured(d) && HasRunConfig(d)
    ensures exists e: Spec :: HiddenSettings(e) && !HasRunConfig(e)
  {
    var e := Spec(Target("", "", None), Inference("", "", "", "", None), Sandbox("", ["p"], None, map[], false, false),
                  Agent("", []), Source("", "", "", ""), [], []);
    assert HiddenSettings(e) && !HasRunConfig(e);
  }
}
