// Reading the gateway (internal/plan/state.go), building the plan
// (internal/plan/plan.go), and the preflight over it (cmd/workflow_apply.go).
module Planning {
  import opened Strings
  import opened Schema

  datatype GatewayError = Unavailable | Unauthenticated | NotFound | Unsupported | OtherError(detail: string)

  datatype Provider = Provider(name: string, kind: string)

  datatype Health = Health(healthy: bool, version: string)

  datatype InferenceRoute = InferenceRoute(route: string, provider: string, model: string, timeoutSecs: nat)

  /** What the gateway answers to the three reads. */
  datatype Reader = Reader(
    health: Result<Health, GatewayError>,
    providers: Result<seq<Provider>, GatewayError>,
    route: string -> Result<InferenceRoute, GatewayError>)

  datatype InferenceState = InferenceState(
    capable: bool, present: bool, provider: string, model: string, route: string, timeoutSecs: nat)

  datatype CurrentState = CurrentState(
    inspected: bool, health: Health, reachable: bool,
    providersKnown: bool, providers: seq<Provider>, inference: InferenceState)

  const NO_INFERENCE := InferenceState(false, false, "", "", "", 0)
  const UNINSPECTED := CurrentState(false, Health(false, ""), false, false, [], NO_INFERENCE)
  const DEFAULT_INFERENCE_ROUTE := "inference.local"

  predicate Degrades(e: GatewayError) {
    e.Unavailable? || e.Unauthenticated?
  }

  /** ReadInferenceState. */
  function ReadInferenceState(r: Reader, inf: Inference): Result<InferenceState, GatewayError> {
    match r.route(if inf.route == "" then DEFAULT_INFERENCE_ROUTE else inf.route)
    case Ok(route) => Ok(InferenceState(true, true, route.provider, route.model, route.route, route.timeoutSecs))
    case Err(e) =>
      if e.NotFound? then Ok(NO_INFERENCE.(capable := true))
      else if e.Unsupported? then Ok(NO_INFERENCE)
      else Err(e)
  }

  /** The inference read ends in an error that is escalated. */
  predicate InferenceReadFails(r: Reader, inf: Inference) {
    InferenceConfigured(inf) && ReadInferenceState(r, inf).Err? && !Degrades(ReadInferenceState(r, inf).error)
  }

  /** The gateway could be read, or what failed only makes it count as unreachable. */
  predicate ReadSucceeds(r: Reader, inf: Inference) {
    if r.health.Err? then Degrades(r.health.error)
    else if r.providers.Err? then Degrades(r.providers.error)
    else !InferenceReadFails(r, inf)
  }

  /** ReadCurrentState. A gateway counts as reachable, without an error, exactly when
      health and providers were both read and it reported healthy; then the provider
      list is the gateway's. */
  method ReadCurrentState(r: Reader, desired: Spec) returns (state: CurrentState, err: Option<GatewayError>)
    ensures state.inspected
    ensures err.None? <==> ReadSucceeds(r, desired.inference)
    ensures err.None? && state.reachable <==>
      r.health.Ok? && r.health.value.healthy && r.providers.Ok? && !InferenceReadFails(r, desired.inference)
    ensures err.None? && !state.reachable <==>
      || (r.health.Err? && Degrades(r.health.error))
      || (r.health.Ok? && r.providers.Err? && Degrades(r.providers.error))
      || (r.health.Ok? && !r.health.value.healthy && r.providers.Ok? && !InferenceReadFails(r, desired.inference))
    ensures state.providersKnown <==> r.health.Ok? && r.providers.Ok?
    ensures state.providersKnown ==> state.providers == r.providers.value
    ensures err.None? && state.reachable && InferenceConfigured(desired.inference) ==>
      var read := ReadInferenceState(r, desired.inference);
      state.inference == if read.Ok? then read.value else NO_INFERENCE
    ensures err.None? && state.reachable && InferenceConfigured(desired.inference) ==>
      var answer := r.route(if desired.inference.route == "" then DEFAULT_INFERENCE_ROUTE else desired.inference.route);
      && (state.inference.present <==> answer.Ok?)
      && (state.inference.capable <==> answer.Ok? || answer.error == NotFound)
      && (answer.Ok? ==>
            && state.inference.provider == answer.value.provider && state.inference.model == answer.value.model
            && state.inference.route == answer.value.route && state.inference.timeoutSecs == answer.value.timeoutSecs)
    ensures err.None? && !InferenceConfigured(desired.inference) ==> state.inference == NO_INFERENCE
  {
    state := UNINSPECTED.(inspected := true);
    if r.health.Err? {
      if Degrades(r.health.error) {
        state := state.(reachable := false);
        return state, None;
      }
      return state, Some(r.health.error);
    }
    state := state.(health := r.health.value, reachable := r.health.value.healthy);
    if r.providers.Err? {
      if Degrades(r.providers.error) {
        state := state.(reachable := false);
        return state, None;
      }
      return state, Some(r.providers.error);
    }
    state := state.(providers := r.providers.value, providersKnown := true);
    if InferenceConfigured(desired.inference) {
      var inf := ReadInferenceState(r, desired.inference);
      if inf.Err? {
        if Degrades(inf.error) {
          state := state.(inference := NO_INFERENCE);
        } else {
          return state, Some(inf.error);
        }
      } else {
        state := state.(inference := inf.value);
      }
    }
    return state, None;
  }

  // ---------------------------------------------------------------- plan

  datatype Action =
    | Noop | Create | Update | Validate | LoginRequired | NotInspected | MissingProvider
    | CreateSandbox | Upload | Download | Execute | DeleteSandbox

  datatype Section = TargetSection | ProvidersSection | InferenceSection | RunSection

  datatype Resource = Resource(name: string, action: Action, detail: string)

  datatype Group = Group(section: Section, resources: seq<Resource>)

  datatype Plan = Plan(gateway: string, workspace: string, groups: seq<Group>)

  /** hasRunConfig. */
  predicate HasRunConfig(s: Spec) {
    s.sandbox.image != "" || s.source.repo != "" || |s.payloads| > 0 || |s.outputs| > 0 || s.agent.kind != ""
  }

  function TargetGroup(s: Spec, current: CurrentState): Group {
    var (action, detail) :=
      if !current.inspected then (NotInspected, "gateway not inspected")
      else if current.reachable then
        (Validate,
         "gateway " + s.target.gateway + if current.health.version != "" then " v" + current.health.version else "")
      else (LoginRequired, "gateway unreachable or unauthenticated");
    Group(TargetSection, [Resource(s.target.gateway, action, detail)])
  }

  /** The provider a map filled in list order holds for `name`: the last one. */
  function LastNamed(providers: seq<Provider>, name: string): (p: Option<Provider>)
    ensures p.Some? <==> exists q :: q in providers && q.name == name
    ensures p.Some? ==> p.value in providers && p.value.name == name
  {
    if providers == [] then None
    else
      var last := providers[|providers| - 1];
      assert providers == providers[..|providers| - 1] + [last];
      if last.name == name then Some(last) else LastNamed(providers[..|providers| - 1], name)
  }

  function ProviderResource(name: string, current: CurrentState): Resource {
    if !current.providersKnown then Resource(name, NotInspected, "gateway providers not inspected")
    else
      match LastNamed(current.providers, name)
      case None => Resource(name, MissingProvider, "(referenced)")
      case Some(p) => Resource(name, Noop, if p.kind != "" then p.kind else "(referenced)")
  }

  function ProviderResources(refs: seq<string>, current: CurrentState): (rs: seq<Resource>)
    ensures |rs| == |refs|
    ensures forall i :: 0 <= i < |refs| ==> rs[i] == ProviderResource(refs[i], current)
  {
    seq(|refs|, i requires 0 <= i < |refs| => ProviderResource(refs[i], current))
  }

  /** buildProvidersGroup. */
  method BuildProvidersGroup(s: Spec, current: CurrentState) returns (group: Group)
    ensures group == Group(ProvidersSection, ProviderResources(References(s), current))
  {
    group := Group(ProvidersSection, []);
    var currentByName: map<string, Provider> := map[];
    for i := 0 to |current.providers|
      invariant forall name: string ::
        LastNamed(current.providers[..i], name) == if name in currentByName then Some(currentByName[name]) else None
    {
      assert current.providers[..i + 1][..i] == current.providers[..i];
      currentByName := currentByName[current.providers[i].name := current.providers[i]];
    }
    assert current.providers[..|current.providers|] == current.providers;
    var refs := ProviderReferences(s);
    for i := 0 to |refs|
      invariant group == Group(ProvidersSection, ProviderResources(refs, current)[..i])
    {
      var name := refs[i];
      var resource;
      if !current.providersKnown {
        resource := Resource(name, NotInspected, "gateway providers not inspected");
      } else {
        var action, detail := MissingProvider, "(referenced)";
        assert LastNamed(current.providers, name) == if name in currentByName then Some(currentByName[name]) else None;
        if name in currentByName {
          action := Noop;
          if currentByName[name].kind != "" {
            detail := currentByName[name].kind;
          }
        }
        resource := Resource(name, action, detail);
      }
      assert ProviderResources(refs, current)[i] == resource;
      PrefixGrows(ProviderResources(refs, current), i);
      group := group.(resources := group.resources + [resource]);
    }
  }

  /** InferenceAction; `secs` is the parsed timeout, 0 when it does not parse. */
  function InferenceAction(inf: Inference, cur: InferenceState, secs: nat): Action {
    if !cur.capable then Validate
    else if !cur.present then Create
    else if inf.provider != cur.provider || inf.model != cur.model || (secs != 0 && secs != cur.timeoutSecs) then Update
    else Noop
  }

  function InferenceDetail(inf: Inference, action: Action): string {
    var named := inf.provider + (if inf.provider != "" && inf.model != "" then "/" else "") + inf.model;
    var pm := if named == "" then "(provider/model unspecified)" else named;
    match action
    case Noop => pm + "; matches gateway"
    case Validate => pm + "; config only (gateway does not report inference state)"
    case _ => if inf.timeout != "" then pm + "; timeout " + inf.timeout else pm
  }

  function InferenceGroup(inf: Inference, cur: InferenceState, secs: nat): Group {
    var action := InferenceAction(inf, cur, secs);
    Group(InferenceSection, [Resource("inference", action, InferenceDetail(inf, action))])
  }

  // The run group, one function per statement of buildRunGroup.

  function CreateResources(s: Spec): seq<Resource> {
    if s.sandbox.image == "" then []
    else [Resource(s.sandbox.image, CreateSandbox,
                   if |s.sandbox.providers| == 0 then ""
                   else "sandbox providers: " + JoinText(s.sandbox.providers, ", "))]
  }

  function RepoResources(s: Spec): seq<Resource> {
    if s.source.repo == "" then [] else [Resource(s.source.repo, Upload, "source repo")]
  }

  function PayloadName(p: Payload): string {
    if p.source == "" && p.content != "" then p.destination else p.source
  }

  function PayloadResources(payloads: seq<Payload>): seq<Resource> {
    if payloads == [] then []
    else
      var last := payloads[|payloads| - 1];
      PayloadResources(payloads[..|payloads| - 1])
      + if PayloadName(last) != "" then [Resource(PayloadName(last), Upload, "payload")] else []
  }

  function ExecuteResources(s: Spec): seq<Resource> {
    if s.agent.kind == "" then []
    else [Resource(s.agent.kind, Execute, if |s.agent.args| > 0 then "args: " + JoinText(s.agent.args, ", ") else "")]
  }

  function OutputResources(outputs: seq<Output>): (rs: seq<Resource>)
    ensures |rs| == |outputs|
  {
    seq(|outputs|, i requires 0 <= i < |outputs| =>
      Resource(outputs[i].source, Download, "host output: " + outputs[i].destination))
  }

  function DeleteResources(s: Spec): seq<Resource> {
    if s.sandbox.image != "" && !s.sandbox.keep then [Resource(s.sandbox.image, DeleteSandbox, "")] else []
  }

  function RunResources(s: Spec): seq<Resource> {
    CreateResources(s) + RepoResources(s) + PayloadResources(s.payloads) + ExecuteResources(s)
    + OutputResources(s.outputs) + DeleteResources(s)
  }

  /** buildRunGroup. */
  method BuildRunGroup(s: Spec) returns (group: Group)
    ensures group == Group(RunSection, RunResources(s))
  {
    hide JoinText;
    var resources: seq<Resource> := [];
    if s.sandbox.image != "" {
      var detail := "";
      if |s.sandbox.providers| > 0 {
        detail := "sandbox providers: " + JoinText(s.sandbox.providers, ", ");
      }
      resources := resources + [Resource(s.sandbox.image, CreateSandbox, detail)];
    }
    assert resources == CreateResources(s);
    ghost var before := resources;
    if s.source.repo != "" {
      resources := resources + [Resource(s.source.repo, Upload, "source repo")];
    }
    assert resources == before + RepoResources(s);
    before := resources;
    resources := AddPayloads(s.payloads, resources);
    resources := AddExecute(s, resources);
    before := resources;
    for i := 0 to |s.outputs|
      invariant resources == before + OutputResources(s.outputs)[..i]
    {
      PrefixGrows(OutputResources(s.outputs), i);
      resources := resources + [Resource(s.outputs[i].source, Download, "host output: " + s.outputs[i].destination)];
    }
    assert resources == before + OutputResources(s.outputs);
    before := resources;
    if s.sandbox.image != "" && !s.sandbox.keep {
      resources := resources + [Resource(s.sandbox.image, DeleteSandbox, "")];
    }
    assert resources == before + DeleteResources(s);
    group := Group(RunSection, resources);
  }

  /** The payload loop of buildRunGroup. */
  method AddPayloads(payloads: seq<Payload>, before: seq<Resource>) returns (resources: seq<Resource>)
    ensures resources == before + PayloadResources(payloads)
  {
    resources := before;
    for i := 0 to |payloads|
      invariant resources == before + PayloadResources(payloads[..i])
    {
      assert payloads[..i + 1][..i] == payloads[..i];
      var payload := payloads[i];
      var name := payload.source;
      if name == "" && payload.content != "" {
        name := payload.destination;
      }
      if name != "" {
        resources := resources + [Resource(name, Upload, "payload")];
      }
    }
    assert payloads[..|payloads|] == payloads;
  }

  method AddExecute(s: Spec, before: seq<Resource>) returns (resources: seq<Resource>)
    ensures resources == before + ExecuteResources(s)
  {
    hide JoinText;
    resources := before;
    if s.agent.kind != "" {
      var detail := "";
      if |s.agent.args| > 0 {
        detail := "args: " + JoinText(s.agent.args, ", ");
      }
      resources := resources + [Resource(s.agent.kind, Execute, detail)];
    }
  }

  function PlanOf(s: Spec, current: CurrentState, secs: nat): Plan {
    Plan(s.target.gateway, s.target.workspace,
      [TargetGroup(s, current)]
      + (if References(s) != [] then [Group(ProvidersSection, ProviderResources(References(s), current))] else [])
      + (if InferenceConfigured(s.inference) then [InferenceGroup(s.inference, current.inference, secs)] else [])
      + (if HasRunConfig(s) then [Group(RunSection, RunResources(s))] else []))
  }

  /** Build. */
  method Build(s: Spec, current: CurrentState, secs: nat) returns (p: Plan)
    ensures p == PlanOf(s, current, secs)
  {
    hide RunResources, ProviderResources, TargetGroup, InferenceGroup, References;
    var groups := [TargetGroup(s, current)];
    var refs := ProviderReferences(s);
    if |refs| > 0 {
      var group := BuildProvidersGroup(s, current);
      groups := groups + [group];
    }
    if InferenceConfigured(s.inference) {
      groups := groups + [InferenceGroup(s.inference, current.inference, secs)];
    }
    if HasRunConfig(s) {
      var group := BuildRunGroup(s);
      groups := groups + [group];
    }
    p := Plan(s.target.gateway, s.target.workspace, groups);
  }

  // ----------------------------------------------------------- preflight

  datatype PreflightError = GatewayUnreachable | ProviderMissing(name: string) | InferenceRemoved

  function Objection(section: Section, r: Resource): Option<PreflightError> {
    if section.TargetSection? && r.action.LoginRequired? then Some(GatewayUnreachable)
    else if section.ProvidersSection? && r.action.MissingProvider? then Some(ProviderMissing(r.name))
    else if section.InferenceSection? && r.action.Validate? then Some(InferenceRemoved)
    else None
  }

  predicate GroupPasses(g: Group) {
    forall r :: r in g.resources ==> Objection(g.section, r).None?
  }

  /** preflightPlan. */
  method PreflightPlan(p: Plan) returns (err: Option<PreflightError>)
    ensures err.None? <==> forall g :: g in p.groups ==> GroupPasses(g)
    ensures err.Some? ==> exists g, r :: g in p.groups && r in g.resources && Objection(g.section, r) == err
  {
    for i := 0 to |p.groups|
      invariant forall k :: 0 <= k < i ==> GroupPasses(p.groups[k])
    {
      var group := p.groups[i];
      for j := 0 to |group.resources|
        invariant forall k :: 0 <= k < j ==> Objection(group.section, group.resources[k]).None?
      {
        var objection := Objection(group.section, group.resources[j]);
        if objection.Some? {
          assert group in p.groups && group.resources[j] in group.resources;
          assert !GroupPasses(group);
          return objection;
        }
      }
    }
    err := None;
  }

  /** What passing the preflight of a built plan means for the gateway. */
  lemma PreflightMeaning(s: Spec, current: CurrentState, secs: nat)
    ensures (forall g :: g in PlanOf(s, current, secs).groups ==> GroupPasses(g))
       <==> && (current.inspected ==> current.reachable)
            && (current.providersKnown ==>
                  forall name :: name in References(s) ==> exists q :: q in current.providers && q.name == name)
            && (InferenceConfigured(s.inference) ==> InferenceAction(s.inference, current.inference, secs) != Validate)
  {
    hide References, RunResources, InferenceDetail, InferenceAction;
    var groups := PlanOf(s, current, secs).groups;
    var refs := References(s);
    var target := TargetGroup(s, current);
    var providers := Group(ProvidersSection, ProviderResources(refs, current));
    var inference := InferenceGroup(s.inference, current.inference, secs);
    assert GroupPasses(target) <==> (current.inspected ==> current.reachable) by {
      assert target.resources[0] in target.resources;
    }
    ProvidersPass(refs, current);
    assert GroupPasses(inference) <==> InferenceAction(s.inference, current.inference, secs) != Validate by {
      assert inference.resources[0] in inference.resources;
    }
    assert GroupPasses(Group(RunSection, RunResources(s)));
    assert refs == [] ==> GroupPasses(providers);
  }

  lemma ProvidersPass(refs: seq<string>, current: CurrentState)
    ensures GroupPasses(Group(ProvidersSection, ProviderResources(refs, current)))
       <==> (current.providersKnown ==>
               forall name :: name in refs ==> exists q :: q in current.providers && q.name == name)
  {
    var rs := ProviderResources(refs, current);
    forall i | 0 <= i < |refs|
      ensures Objection(ProvidersSection, rs[i]).None? <==>
        (current.providersKnown ==> exists q :: q in current.providers && q.name == refs[i])
    {
      assert rs[i] == ProviderResource(refs[i], current);
    }
    assert forall i :: 0 <= i < |refs| ==> rs[i] in rs && refs[i] in refs;
  }

  // ------------------------------------------------- what the plan tells

  predicate Listed(name: string, current: CurrentState) {
    exists q :: q in current.providers && q.name == name
  }

  /** What a resource of the providers group says about one reference. */
  predicate TellsProvider(r: Resource, name: string, current: CurrentState) {
    && r.name == name
    && (!current.providersKnown ==> r.action == NotInspected)
    && (current.providersKnown && !Listed(name, current) ==> r.action == MissingProvider)
    && (current.providersKnown && Listed(name, current) ==>
          && r.action == Noop
          && exists q :: q in current.providers && q.name == name
                         && r.detail == if q.kind == "" then "(referenced)" else q.kind)
  }

  /** What the one resource of the target group says. */
  predicate TellsTarget(r: Resource, t: Target, current: CurrentState) {
    && r.name == t.gateway
    && (!current.inspected ==> r.action == NotInspected)
    && (current.inspected && current.reachable ==> r.action == Validate)
    && (current.inspected && !current.reachable ==> r.action == LoginRequired)
  }

  predicate TellsInference(r: Resource, inf: Inference, cur: InferenceState, secs: nat) {
    && (!cur.capable ==> r.action == Validate)
    && (cur.capable && !cur.present ==> r.action == Create)
    && (cur.capable && cur.present ==>
          var same := inf.provider == cur.provider && inf.model == cur.model && (secs == 0 || secs == cur.timeoutSecs);
          r.action == if same then Noop else Update)
  }

  /** What a group of the plan says, section by section. */
  ghost predicate Tells(g: Group, s: Spec, current: CurrentState, secs: nat) {
    match g.section
    case TargetSection => |g.resources| == 1 && TellsTarget(g.resources[0], s.target, current)
    case ProvidersSection =>
      && |g.resources| == |References(s)|
      && forall i :: 0 <= i < |g.resources| ==> TellsProvider(g.resources[i], References(s)[i], current)
    case InferenceSection =>
      |g.resources| == 1 && TellsInference(g.resources[0], s.inference, current.inference, secs)
    case RunSection => g.resources == RunResources(s)
  }

  lemma TargetTells(s: Spec, current: CurrentState, secs: nat)
    ensures Tells(TargetGroup(s, current), s, current, secs)
  {}

  lemma ProvidersTell(s: Spec, current: CurrentState, secs: nat)
    ensures Tells(Group(ProvidersSection, ProviderResources(References(s), current)), s, current, secs)
  {
    hide References;
    var refs := References(s);
    forall i | 0 <= i < |refs| ensures TellsProvider(ProviderResources(refs, current)[i], refs[i], current) {
      assert ProviderResources(refs, current)[i] == ProviderResource(refs[i], current);
    }
  }

  lemma InferenceTells(s: Spec, current: CurrentState, secs: nat)
    ensures Tells(InferenceGroup(s.inference, current.inference, secs), s, current, secs)
  {
    hide InferenceDetail;
  }

  lemma SectionsOf(s: Spec, current: CurrentState, secs: nat)
    ensures TargetGroup(s, current).section == TargetSection
    ensures InferenceGroup(s.inference, current.inference, secs).section == InferenceSection
  {}

  /** The plan tells what was read: the target's state, for every reference whether the
      gateway listed it and as what kind, how the inference route differs, and the run;
      and exactly the sections that apply are there, in their order. */
  lemma PlanTells(s: Spec, current: CurrentState, secs: nat)
    ensures var p := PlanOf(s, current, secs);
      && p.gateway == s.target.gateway && p.workspace == s.target.workspace
      && (forall g :: g in p.groups ==> Tells(g, s, current, secs))
      && p.groups != [] && p.groups[0].section == TargetSection
      && ((exists g :: g in p.groups && g.section == ProvidersSection) <==> References(s) != [])
      && ((exists g :: g in p.groups && g.section == InferenceSection) <==> InferenceConfigured(s.inference))
      && ((exists g :: g in p.groups && g.section == RunSection) <==> HasRunConfig(s))
      && (forall i, j :: 0 <= i < j < |p.groups| ==> Place(p.groups[i].section) < Place(p.groups[j].section))
  {
    hide References, Tells, ProviderResources, TargetGroup, InferenceGroup, RunResources, InferenceConfigured,
      HasRunConfig;
    SectionsOf(s, current, secs);
    var target, inference := TargetGroup(s, current), InferenceGroup(s.inference, current.inference, secs);
    var providers, run := Group(ProvidersSection, ProviderResources(References(s), current)),
        Group(RunSection, RunResources(s));
    TargetTells(s, current, secs);
    ProvidersTell(s, current, secs);
    InferenceTells(s, current, secs);
    RunTells(s, current, secs);
    var p := PlanOf(s, current, secs);
    assert References(s) != [] ==> providers in p.groups;
    assert InferenceConfigured(s.inference) ==> inference in p.groups;
    assert HasRunConfig(s) ==> run in p.groups;
  }

  lemma RunTells(s: Spec, current: CurrentState, secs: nat)
    ensures Tells(Group(RunSection, RunResources(s)), s, current, secs)
  {
    hide RunResources;
  }

  function Place(section: Section): nat {
    match section
    case TargetSection => 0
    case ProvidersSection => 1
    case InferenceSection => 2
    case RunSection => 3
  }
}
