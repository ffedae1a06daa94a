// One apply, from connecting to running (cmd/connect_plan.go, cmd/apply_service.go):
// what is checked before a sandbox is created, and that execution does what the plan
// said.
module Pipeline {
  import opened Strings
  import opened Schema
  import opened Planning
  import opened Loading
  import opened Request
  import opened ResolveProofs
  import Runner
  import Resolve
  import Expand
  import OutputPaths
  import Paths

  /** What the gateway answers beside the sandbox calls. */
  datatype Gateway = Gateway(
    connects: bool, reader: Reader, hasProvider: string -> bool, executes: bool)

  datatype Options = Options(setupOnly: bool, dryRun: bool, outputDir: string)

  datatype ApplyError =
    | NotConnected | PlanFailed(why: GatewayError) | NotReachable | PreflightFailed(objection: PreflightError)
    | InferenceUnsupported | ReferenceUnverified(name: string) | NotBuilt(cause: BuildError)
    | ExecutionUnsupported | RunFailed(errors: seq<Runner.RunError>)

  /** verifyProviderReferences. */
  method VerifyProviderReferences(gateway: Gateway, s: Spec) returns (err: Option<ApplyError>)
    ensures err.None? <==> forall name :: name in References(s) ==> gateway.hasProvider(name)
    ensures err.Some? ==> err.value.ReferenceUnverified?
    ensures err.Some? ==> err.value.name in References(s) && !gateway.hasProvider(err.value.name)
  {
    var refs := ProviderReferences(s);
    for i := 0 to |refs|
      invariant forall k :: 0 <= k < i ==> gateway.hasProvider(refs[k])
    {
      if !gateway.hasProvider(refs[i]) {
        return Some(ReferenceUnverified(refs[i]));
      }
    }
    err := None;
  }

  /** The guards that every apply but a dry run has to pass. */
  ghost predicate GuardsPass(w: Workflow, p: Plan, current: CurrentState, connected: bool, gateway: Gateway) {
    var s := w.desired.spec;
    && connected && current.reachable
    && (forall g :: g in p.groups ==> GroupPasses(g))
    && !InferenceConfigured(s.inference)
    && (forall name :: name in References(s) ==> gateway.hasProvider(name))
  }

  /** The workflow declares a sandbox run and it was asked for. */
  predicate WantsRun(s: Spec, opts: Options) {
    !opts.setupOnly && RunConfigured(s)
  }

  /** The run can be carried out: the client supports it and the request can be built. */
  predicate CanRun(w: Workflow, gateway: Gateway, opts: Options, a: Answers) {
    gateway.executes && BuildFault(w, opts.outputDir, a).None?
  }

  /** The run was carried out and nothing that counts as a failure happened. */
  predicate RunSucceeds(w: Workflow, gateway: Gateway, opts: Options, a: Answers, f: Runner.Faults) {
    CanRun(w, gateway, opts, a) && Runner.Meaning(RequestFor(w, opts.outputDir, a), f).errors == []
  }

  /** executeResolvedWorkflow. Calls are made on the sandbox client only when every
      guard passed and the request could be built; then they are exactly the calls of
      the run. Whatever happens, everything set up on the host is released. */
  method ExecuteResolvedWorkflow(w: Workflow, p: Plan, current: CurrentState, connected: bool, gateway: Gateway,
                                 opts: Options, host: Host, client: Runner.Client)
    returns (err: Option<ApplyError>)
    modifies host, client
    ensures host.held == old(host.held)
    ensures var guarded := !opts.dryRun && GuardsPass(w, p, current, connected, gateway);
      var ready := guarded && WantsRun(w.desired.spec, opts) && CanRun(w, gateway, opts, host.answers);
      var m := Runner.Meaning(RequestFor(w, opts.outputDir, host.answers), client.faults);
      && client.trace == (if ready then old(client.trace) + m.trace else old(client.trace))
      && (ready && m.errors != [] ==> err == Some(RunFailed(m.errors)))
      && (err.None? <==> || opts.dryRun
                         || (guarded && (WantsRun(w.desired.spec, opts) ==>
                                           RunSucceeds(w, gateway, opts, host.answers, client.faults))))
    ensures !opts.dryRun && (!connected || !current.reachable) ==> err == Some(NotReachable)
  {
    hide RequestFor, BuildFault, Runner.Meaning, References;
    if opts.dryRun {
      return None;
    }
    if !connected || !current.reachable {
      return Some(NotReachable);
    }
    var objection := PreflightPlan(p);
    if objection.Some? {
      return Some(PreflightFailed(objection.value));
    }
    if InferenceConfigured(w.desired.spec.inference) {
      return Some(InferenceUnsupported);
    }
    err := VerifyProviderReferences(gateway, w.desired.spec);
    if err.Some? {
      return err;
    }
    var cleanups: seq<Held> := [];
    var req: Option<Runner.RunRequest> := None;
    if !opts.setupOnly && RunConfigured(w.desired.spec) {
      var built;
      built, cleanups := BuildRunRequest(w, opts.outputDir, host);
      if built.Err? {
        return Some(NotBuilt(built.error));
      }
      req := Some(built.value);
    }
    if opts.setupOnly || !RunConfigured(w.desired.spec) {
      err := None;
    } else if !gateway.executes {
      err := Some(ExecutionUnsupported);
    } else {
      var errors := Runner.Run(client, req.value);
      err := if errors == [] then None else Some(RunFailed(errors));
    }
    Cleanup(host, cleanups);
  }

  /** The gateway answered both reads and reported itself healthy. */
  predicate GatewayAnswers(r: Reader) {
    r.health.Ok? && r.health.value.healthy && r.providers.Ok?
  }

  /** connectAndBuildPlan: without a connection a dry run gets a desired-only plan. */
  method ConnectAndBuildPlan(w: Workflow, gateway: Gateway, dryRun: bool, secs: nat)
    returns (err: Option<ApplyError>, p: Plan, current: CurrentState)
    ensures err.None? <==> if gateway.connects then ReadSucceeds(gateway.reader, w.desired.spec.inference) else dryRun
    ensures err.None? ==> p == PlanOf(w.desired.spec, current, secs)
    ensures err.None? ==> current.inspected == gateway.connects && (dryRun || gateway.connects)
    ensures err.None? && current.reachable <==>
      gateway.connects && GatewayAnswers(gateway.reader)
        && !InferenceReadFails(gateway.reader, w.desired.spec.inference)
    ensures err.None? && current.reachable ==>
      current.providersKnown && gateway.reader.providers == Ok(current.providers)
  {
    p, current := Plan("", "", []), UNINSPECTED;
    if !gateway.connects && !dryRun {
      return Some(NotConnected), p, current;
    }
    if gateway.connects {
      var failure;
      current, failure := ReadCurrentState(gateway.reader, w.desired.spec);
      if failure.Some? {
        return Some(PlanFailed(failure.value)), p, current;
      }
    }
    p := Build(w.desired.spec, current, secs);
    err := None;
  }

  /** When an apply may go past its guards: the gateway is healthy and listed every
      referenced provider, each one was found again, and no inference block is configured. */
  ghost predicate Safe(w: Workflow, gateway: Gateway) {
    var s := w.desired.spec;
    && !InferenceConfigured(s.inference)
    && gateway.connects && GatewayAnswers(gateway.reader)
    && forall name :: name in References(s) ==>
         gateway.hasProvider(name) && exists q :: q in gateway.reader.providers.value && q.name == name
  }

  ghost predicate Ready(w: Workflow, gateway: Gateway, opts: Options, a: Answers) {
    !opts.dryRun && Safe(w, gateway) && WantsRun(w.desired.spec, opts) && CanRun(w, gateway, opts, a)
  }

  /** A dry run needs a gateway that is absent or can be read; every other apply needs a
      safe one, and when it wants a sandbox run, that this run succeeds. */
  ghost predicate ApplySucceeds(w: Workflow, gateway: Gateway, opts: Options, a: Answers, f: Runner.Faults) {
    var s := w.desired.spec;
    if opts.dryRun then gateway.connects ==> ReadSucceeds(gateway.reader, s.inference)
    else Safe(w, gateway) && (WantsRun(s, opts) ==> RunSucceeds(w, gateway, opts, a, f))
  }

  /** The apply service from connecting on: the sandbox client is called exactly when
      creation is safe and the request can be built, and then as the run says; and the
      apply ends without an error exactly when it succeeds as a whole. */
  method Apply(w: Workflow, gateway: Gateway, opts: Options, secs: nat, host: Host, client: Runner.Client)
    returns (err: Option<ApplyError>)
    modifies host, client
    ensures host.held == old(host.held)
    ensures client.trace == old(client.trace)
      + if Ready(w, gateway, opts, host.answers)
        then Runner.Meaning(RequestFor(w, opts.outputDir, host.answers), client.faults).trace
        else []
    ensures err.None? <==> ApplySucceeds(w, gateway, opts, host.answers, client.faults)
  {
    hide RequestFor, BuildFault, Runner.Meaning, References, PlanOf, GroupPasses, RunConfigured;
    var p, current;
    err, p, current := ConnectAndBuildPlan(w, gateway, opts.dryRun, secs);
    if err.Some? {
      assert !Ready(w, gateway, opts, host.answers);
      return;
    }
    PreflightMeaning(w.desired.spec, current, secs);
    assert Safe(w, gateway) <==> GuardsPass(w, p, current, gateway.connects, gateway);
    err := ExecuteResolvedWorkflow(w, p, current, gateway.connects, gateway, opts, host, client);
  }

  // -------------------------------------------- the plan is what is executed

  /** What a run does, with the wait for readiness left out. */
  function EraseWaits(t: seq<Runner.Event>): seq<Runner.Event> {
    if t == [] then [] else (if t[0].Waited? then [] else [t[0]]) + EraseWaits(t[1..])
  }

  lemma {:induction false} EraseWaitsConcat(a: seq<Runner.Event>, b: seq<Runner.Event>)
    ensures EraseWaits(a + b) == EraseWaits(a) + EraseWaits(b)
    decreases a
  {
    if a == [] {
      assert a + b == b;
    } else {
      assert (a + b)[1..] == a[1..] + b;
      EraseWaitsConcat(a[1..], b);
    }
  }

  lemma {:induction false} NothingToErase(t: seq<Runner.Event>)
    requires forall e :: e in t ==> !e.Waited?
    ensures EraseWaits(t) == t
    decreases t
  {
    if t != [] {
      assert t[0] in t;
      NothingToErase(t[1..]);
      assert t == [t[0]] + t[1..];
    }
  }

  /** Where the payloads and the outputs stand in the plan's run group. */
  function FirstPayload(s: Spec): nat {
    |CreateResources(s)| + |RepoResources(s)|
  }

  function FirstOutput(s: Spec): nat {
    FirstPayload(s) + |s.payloads| + |ExecuteResources(s)|
  }

  /** The resource at place `k` of the run group announces an event of the run: the same
      action, on the things of the document that stand at this place. */
  predicate Announces(r: Resource, e: Runner.Event, k: nat, w: Workflow, outputDir: string, a: Answers) {
    var s := w.desired.spec;
    match e
    case Created(name, image, providers, env, policy) =>
      && r.action.CreateSandbox? && r.name == s.sandbox.image && name == w.desired.name
      && ImageIs(image, r.name, w.baseDir, a) && providers == s.sandbox.providers
      && env == s.sandbox.env && PolicyIs(policy, s.sandbox, w.baseDir, a)
      && r.detail == if providers == [] then "" else "sandbox providers: " + JoinText(providers, ", ")
    case Waited(_) => false
    case Uploaded(_, src, dst) =>
      if r.detail == "source repo" then
        && r.action.Upload? && r.name == s.source.repo && a.checkout == Some(src)
        && dst == if s.source.destination != "" then s.source.destination else "/sandbox"
      else
        var i := k - FirstPayload(s);
        && 0 <= i < |s.payloads|
        && r == Resource(PayloadName(s.payloads[i]), Upload, "payload")
        && Runner.Upload(src, dst) == PayloadUpload(s.payloads[i], i, w.baseDir, a)
    case Executed(_, command, interactive) =>
      && r.action.Execute? && command == [r.name] + s.agent.args && interactive == s.sandbox.tty
      && r.detail == if s.agent.args == [] then "" else "args: " + JoinText(s.agent.args, ", ")
    case Downloaded(_, _, src, dst) =>
      var i := k - FirstOutput(s);
      && 0 <= i < |s.outputs|
      && r == Resource(src, Download, "host output: " + s.outputs[i].destination) && src == s.outputs[i].source
      && dst == Paths.JoinPath(OutputRoot(outputDir, a), s.outputs[i].destination)
    case Deleted(_, _) => r.action.DeleteSandbox? && r.name == s.sandbox.image
  }

  /** `rs`, which stand at place `from` and on, announce `es` one for one. */
  ghost predicate AnnouncesAll(rs: seq<Resource>, es: seq<Runner.Event>, from: nat,
                               w: Workflow, outputDir: string, a: Answers)
  {
    |rs| == |es| && forall k :: 0 <= k < |rs| ==> Announces(rs[k], es[k], from + k, w, outputDir, a)
  }

  lemma AnnouncesConcat(r1: seq<Resource>, e1: seq<Runner.Event>, r2: seq<Resource>, e2: seq<Runner.Event>,
                        from: nat, w: Workflow, outputDir: string, a: Answers)
    requires AnnouncesAll(r1, e1, from, w, outputDir, a) && AnnouncesAll(r2, e2, from + |r1|, w, outputDir, a)
    ensures AnnouncesAll(r1 + r2, e1 + e2, from, w, outputDir, a)
  {
    hide Announces;
    forall k | 0 <= k < |r1 + r2| ensures Announces((r1 + r2)[k], (e1 + e2)[k], from + k, w, outputDir, a) {
      if k >= |r1| {
        assert from + k == from + |r1| + (k - |r1|);
      }
    }
  }

  lemma FourAnnounced(r1: seq<Resource>, e1: seq<Runner.Event>, r2: seq<Resource>, e2: seq<Runner.Event>,
                      r3: seq<Resource>, e3: seq<Runner.Event>, r4: seq<Resource>, e4: seq<Runner.Event>,
                      w: Workflow, outputDir: string, a: Answers)
    requires AnnouncesAll(r1, e1, 0, w, outputDir, a) && AnnouncesAll(r2, e2, |r1|, w, outputDir, a)
    requires AnnouncesAll(r3, e3, |r1 + r2|, w, outputDir, a) && AnnouncesAll(r4, e4, |r1 + r2 + r3|, w, outputDir, a)
    ensures AnnouncesAll(r1 + r2 + r3 + r4, e1 + e2 + e3 + e4, 0, w, outputDir, a)
  {
    hide AnnouncesAll;
    AnnouncesConcat(r1, e1, r2, e2, 0, w, outputDir, a);
    AnnouncesConcat(r1 + r2, e1 + e2, r3, e3, 0, w, outputDir, a);
    AnnouncesConcat(r1 + r2 + r3, e1 + e2 + e3, r4, e4, 0, w, outputDir, a);
  }

  /** Every accepted payload is named in the plan, one resource each, in order. */
  lemma {:induction false} PayloadsAreNamed(payloads: seq<Payload>)
    requires forall p :: p in payloads ==> PayloadSound(p)
    ensures |PayloadResources(payloads)| == |payloads|
    ensures forall i :: 0 <= i < |payloads| ==>
      PayloadResources(payloads)[i] == Resource(PayloadName(payloads[i]), Upload, "payload")
    decreases payloads
  {
    if payloads != [] {
      var n := |payloads| - 1;
      assert payloads[n] in payloads;
      PayloadsAreNamed(payloads[..n]);
    }
  }

  /** A workflow as it is when a run is built from it. */
  ghost predicate Prepared(w: Workflow, outputDir: string, a: Answers) {
    && Discharged(w.desired.spec)
    && w.desired.spec.sandbox.image != ""
    && BuildFault(w, outputDir, a).None?
  }

  lemma RepoAnnounced(w: Workflow, name: string, outputDir: string, a: Answers, from: nat)
    requires RepoFault(w.desired.spec.source, a).None?
    ensures AnnouncesAll(RepoResources(w.desired.spec),
                         Runner.UploadEvents(name, RepoUploads(w.desired.spec.source, a)),
                         from, w, outputDir, a)
  {
    hide ImagePath, HostPath;
    var s := w.desired.spec;
    var events := Runner.UploadEvents(name, RepoUploads(s.source, a));
    if s.source.repo != "" {
      assert events[0] == Runner.Uploaded(name, a.checkout.value,
                                          if s.source.destination != "" then s.source.destination else "/sandbox");
    }
  }

  lemma PayloadAnnounced(w: Workflow, k: nat, name: string, outputDir: string, a: Answers)
    requires k < |w.desired.spec.payloads|
    ensures var p := w.desired.spec.payloads[k];
      var upload := PayloadUpload(p, k, w.baseDir, a);
      Announces(Resource(PayloadName(p), Upload, "payload"), Runner.Uploaded(name, upload.src, upload.dst),
                FirstPayload(w.desired.spec) + k, w, outputDir, a)
  {
    hide PayloadUpload, PayloadName, FirstPayload;
    assert "payload" != "source repo" by {
      assert "payload"[0] == 'p' && "source repo"[0] == 's';
    }
  }

  lemma PayloadsAnnounced(w: Workflow, name: string, outputDir: string, a: Answers)
    requires forall p :: p in w.desired.spec.payloads ==> PayloadSound(p)
    ensures AnnouncesAll(PayloadResources(w.desired.spec.payloads),
                         Runner.UploadEvents(name, PayloadUploads(w.desired.spec.payloads, w.baseDir, a)),
                         FirstPayload(w.desired.spec), w, outputDir, a)
  {
    hide PayloadSound, PayloadUpload, PayloadName, PayloadResources, FirstPayload, Announces;
    var payloads := w.desired.spec.payloads;
    var events := Runner.UploadEvents(name, PayloadUploads(payloads, w.baseDir, a));
    var first := FirstPayload(w.desired.spec);
    PayloadsAreNamed(payloads);
    forall k | 0 <= k < |payloads|
      ensures Announces(PayloadResources(payloads)[k], events[k], first + k, w, outputDir, a)
    {
      PayloadAnnounced(w, k, name, outputDir, a);
    }
  }

  lemma UploadEventsConcat(name: string, x: seq<Runner.Upload>, y: seq<Runner.Upload>)
    ensures Runner.UploadEvents(name, x + y) == Runner.UploadEvents(name, x) + Runner.UploadEvents(name, y)
  {}

  /** The plan's resources before the last one, and the run's events before the
      deletion, with the wait left out. */
  function PlannedBody(s: Spec): seq<Resource> {
    CreateResources(s) + (RepoResources(s) + PayloadResources(s.payloads))
    + ExecuteResources(s) + OutputResources(s.outputs)
  }

  function CommandEvents(req: Runner.RunRequest): seq<Runner.Event> {
    if req.command == [] then [] else [Runner.Executed(req.name, req.command, req.tty)]
  }

  function DeleteEvents(req: Runner.RunRequest): seq<Runner.Event> {
    if req.keep then [] else [Runner.Deleted(Runner.Detached, req.name)]
  }

  function RunBody(req: Runner.RunRequest, context: Runner.Context): seq<Runner.Event> {
    [Runner.CreateEvent(req)]
    + Runner.UploadEvents(req.name, req.uploads)
    + CommandEvents(req)
    + Runner.DownloadEvents(context, req.name, req.downloads)
  }

  lemma PlannedBodyIsPlan(s: Spec)
    ensures RunResources(s) == PlannedBody(s) + DeleteResources(s)
  {
    hide CreateResources, RepoResources, PayloadResources, ExecuteResources, OutputResources, DeleteResources;
  }

  lemma SaysAtOnce(req: Runner.RunRequest, w: Workflow, outputDir: string, a: Answers)
    requires RequestSays(req, w, outputDir, a)
    ensures ImageIs(req.image, w.desired.spec.sandbox.image, w.baseDir, a)
    ensures PolicyIs(req.policy, w.desired.spec.sandbox, w.baseDir, a)
  {
    hide ImageIs, PolicyIs, UploadIs, DownloadIs;
  }

  lemma EndsAnnounced(w: Workflow, outputDir: string, a: Answers, from: nat)
    requires w.desired.spec.sandbox.image != "" && BuildFault(w, outputDir, a).None?
    ensures var s, req := w.desired.spec, RequestFor(w, outputDir, a);
      && AnnouncesAll(CreateResources(s), [Runner.CreateEvent(req)], from, w, outputDir, a)
      && AnnouncesAll(ExecuteResources(s), CommandEvents(req), from, w, outputDir, a)
      && AnnouncesAll(DeleteResources(s), DeleteEvents(req), from, w, outputDir, a)
  {
    hide HostPath, JoinText, OutputRoot, RepoUploads, PayloadUploads, BuildFault, ImageIs, PolicyIs, RequestSays,
      FirstPayload, FirstOutput;
    RequestIsTheDocument(w, outputDir, a);
    SaysAtOnce(RequestFor(w, outputDir, a), w, outputDir, a);
  }

  lemma OutputsAnnounced(w: Workflow, outputDir: string, a: Answers, context: Runner.Context)
    ensures var s, req := w.desired.spec, RequestFor(w, outputDir, a);
      AnnouncesAll(OutputResources(s.outputs), Runner.DownloadEvents(context, req.name, req.downloads),
                   FirstOutput(s), w, outputDir, a)
  {
    hide ImagePath, HostPath, Paths.JoinPath, PolicyText, OutputRoot, RepoUploads, PayloadUploads, FirstOutput;
    var s, req := w.desired.spec, RequestFor(w, outputDir, a);
    var events, first := Runner.DownloadEvents(context, req.name, req.downloads), FirstOutput(s);
    forall k | 0 <= k < |s.outputs|
      ensures Announces(OutputResources(s.outputs)[k], events[k], first + k, w, outputDir, a)
    {
      assert events[k] == Runner.Downloaded(context, req.name, req.downloads[k].src, req.downloads[k].dst);
    }
  }

  lemma UploadsAnnounced(w: Workflow, outputDir: string, a: Answers)
    requires Discharged(w.desired.spec) && RepoFault(w.desired.spec.source, a).None?
    ensures var s, req := w.desired.spec, RequestFor(w, outputDir, a);
      AnnouncesAll(RepoResources(s) + PayloadResources(s.payloads), Runner.UploadEvents(req.name, req.uploads),
                   |CreateResources(s)|, w, outputDir, a)
  {
    var s, req := w.desired.spec, RequestFor(w, outputDir, a);
    DischargedPayloads(s);
    hide AnnouncesAll, Discharged, CreateResources, RepoResources, PayloadResources, ImagePath, PolicyText, OutputRoot,
      RepoUploads, PayloadUploads, Runner.UploadEvents, PayloadSound;
    var sources, payloads := RepoUploads(s.source, a), PayloadUploads(s.payloads, w.baseDir, a);
    RepoAnnounced(w, req.name, outputDir, a, |CreateResources(s)|);
    PayloadsAnnounced(w, req.name, outputDir, a);
    UploadEventsConcat(req.name, sources, payloads);
    AnnouncesConcat(RepoResources(s), Runner.UploadEvents(req.name, sources),
                    PayloadResources(s.payloads), Runner.UploadEvents(req.name, payloads),
                    |CreateResources(s)|, w, outputDir, a);
  }

  lemma PlannedUploads(s: Spec)
    requires Discharged(s)
    ensures FirstOutput(s) ==
      |CreateResources(s) + (RepoResources(s) + PayloadResources(s.payloads)) + ExecuteResources(s)|
  {
    DischargedPayloads(s);
    PayloadsAreNamed(s.payloads);
  }

  lemma BodyAnnounced(w: Workflow, outputDir: string, a: Answers, context: Runner.Context)
    requires Prepared(w, outputDir, a)
    ensures AnnouncesAll(PlannedBody(w.desired.spec), RunBody(RequestFor(w, outputDir, a), context), 0, w, outputDir, a)
  {
    var s, req := w.desired.spec, RequestFor(w, outputDir, a);
    assert RepoFault(s.source, a).None?;
    hide AnnouncesAll, Discharged, BuildFault, RequestFor, CreateResources, RepoResources, PayloadResources,
      ExecuteResources, OutputResources, Runner.UploadEvents, Runner.DownloadEvents, CommandEvents, FirstOutput;
    var uploads := RepoResources(s) + PayloadResources(s.payloads);
    EndsAnnounced(w, outputDir, a, 0);
    UploadsAnnounced(w, outputDir, a);
    EndsAnnounced(w, outputDir, a, |CreateResources(s) + uploads|);
    PlannedUploads(s);
    OutputsAnnounced(w, outputDir, a, context);
    FourAnnounced(CreateResources(s), [Runner.CreateEvent(req)],
                  uploads, Runner.UploadEvents(req.name, req.uploads),
                  ExecuteResources(s), CommandEvents(req),
                  OutputResources(s.outputs), Runner.DownloadEvents(context, req.name, req.downloads), w, outputDir, a);
  }

  lemma DischargedPayloads(s: Spec)
    requires Discharged(s)
    ensures forall p :: p in s.payloads ==> PayloadSound(p)
  {}

  lemma UploadsNeverWait(req: Runner.RunRequest, context: Runner.Context)
    ensures EraseWaits(Runner.UploadEvents(req.name, req.uploads)) == Runner.UploadEvents(req.name, req.uploads)
    ensures EraseWaits(Runner.DownloadEvents(context, req.name, req.downloads)) ==
      Runner.DownloadEvents(context, req.name, req.downloads)
  {
    NothingToErase(Runner.UploadEvents(req.name, req.uploads));
    NothingToErase(Runner.DownloadEvents(context, req.name, req.downloads));
  }

  lemma ErasedLifecycle(req: Runner.RunRequest, context: Runner.Context)
    ensures EraseWaits(Runner.Lifecycle(req, context))
         == RunBody(req, context) + DeleteEvents(req)
  {
    hide Runner.UploadEvents, Runner.DownloadEvents, EraseWaits;
    var created := Runner.CreateEvent(req);
    var ups := Runner.UploadEvents(req.name, req.uploads);
    var downs := Runner.DownloadEvents(context, req.name, req.downloads);
    var executed := CommandEvents(req);
    var deleted := DeleteEvents(req);
    UploadsNeverWait(req, context);
    NothingToErase(executed);
    NothingToErase(deleted);
    NothingToErase([created]);
    assert [created, Runner.Waited(req.name)] == [created] + [Runner.Waited(req.name)];
    EraseWaitsConcat([created], [Runner.Waited(req.name)]);
    ErasedWait(Runner.Waited(req.name));
    EraseWaitsConcat([created, Runner.Waited(req.name)], ups);
    EraseWaitsConcat([created, Runner.Waited(req.name)] + ups, executed);
    EraseWaitsConcat([created, Runner.Waited(req.name)] + ups + executed, downs);
    EraseWaitsConcat([created, Runner.Waited(req.name)] + ups + executed + downs, deleted);
  }

  /** The plan is what is executed: once the sandbox is ready and the uploads have
      succeeded, the calls of the run, the wait left out, are the resources of the
      plan's run group, one for one and in order, whatever else fails. */
  lemma PlanIsExecuted(w: Workflow, outputDir: string, a: Answers, f: Runner.Faults)
    requires Prepared(w, outputDir, a)
    requires Runner.UploadsSucceed(RequestFor(w, outputDir, a), f)
    ensures AnnouncesAll(RunResources(w.desired.spec), EraseWaits(Runner.Meaning(RequestFor(w, outputDir, a), f).trace),
                         0, w, outputDir, a)
  {
    var s, req := w.desired.spec, RequestFor(w, outputDir, a);
    var context := (if Runner.NeedsDetachedDownloads(req, f) then Runner.Detached else Runner.Caller);
    hide AnnouncesAll, RequestFor, Runner.Lifecycle, Runner.Meaning, PlannedBody, RunBody, Discharged, BuildFault,
      RunResources, DeleteResources, Runner.NeedsDetachedDownloads, Runner.UploadsSucceed, DeleteEvents, CommandEvents;
    Runner.FullLifecycle(req, f);
    ErasedLifecycle(req, context);
    BodyAnnounced(w, outputDir, a, context);
    EndsAnnounced(w, outputDir, a, |PlannedBody(s)|);
    PlannedBodyIsPlan(s);
    AnnouncesConcat(PlannedBody(s), RunBody(req, context), DeleteResources(s), DeleteEvents(req), 0, w, outputDir, a);
  }

  /** Under every other fault pattern the run stops early: it is a beginning of the
      plan, then the deletion if a sandbox was created and is not kept. */
  lemma NothingOutsideThePlan(w: Workflow, outputDir: string, a: Answers, f: Runner.Faults)
    requires Prepared(w, outputDir, a)
    requires !Runner.UploadsSucceed(RequestFor(w, outputDir, a), f)
    ensures var req := RequestFor(w, outputDir, a);
      exists n: nat :: n <= |PlannedBody(w.desired.spec)| && n <= |RunBody(req, Runner.Caller)|
        && EraseWaits(Runner.Meaning(req, f).trace)
           == RunBody(req, Runner.Caller)[..n] + (if f.createFails then [] else DeleteEvents(req))
        && AnnouncesAll(PlannedBody(w.desired.spec)[..n], RunBody(req, Runner.Caller)[..n], 0, w, outputDir, a)
  {
    hide Announces, RequestFor, Runner.Meaning, EraseWaits, Prepared, PlannedBody, RunBody, Runner.UploadsSucceed;
    var s, req := w.desired.spec, RequestFor(w, outputDir, a);
    var n := if f.createFails || f.waitFails then 1 else 2 + Runner.FirstFailure(f, |req.uploads|, 0);
    EarlyEnd(req, f);
    BodyAnnounced(w, outputDir, a, Runner.Caller);
    BodyLength(req);
  }

  lemma BodyLength(req: Runner.RunRequest)
    ensures |RunBody(req, Runner.Caller)| >= 1 + |req.uploads|
  {}

  lemma ErasedWait(waited: Runner.Event)
    requires waited.Waited?
    ensures EraseWaits([waited]) == []
  {
    assert [waited][1..] == [];
  }

  lemma ErasedEarly(created: Runner.Event, waited: Runner.Event, part: seq<Runner.Event>, deleted: seq<Runner.Event>)
    requires !created.Waited? && waited.Waited?
    requires forall e :: e in part + deleted ==> !e.Waited?
    ensures EraseWaits([created]) == [created]
    ensures EraseWaits([created] + ([waited] + (part + deleted))) == [created] + part + deleted
  {
    hide EraseWaits;
    NothingToErase([created]);
    NothingToErase(part + deleted);
    ErasedWait(waited);
    EraseWaitsConcat([waited], part + deleted);
    EraseWaitsConcat([created], [waited] + (part + deleted));
    assert [created] + ([] + (part + deleted)) == [created] + part + deleted;
  }

  lemma EndBeforeUploads(req: Runner.RunRequest, f: Runner.Faults, deleted: seq<Runner.Event>)
    requires f.createFails || f.waitFails
    requires deleted == DeleteEvents(req)
    ensures EraseWaits(Runner.Meaning(req, f).trace) ==
      RunBody(req, Runner.Caller)[..1] + if f.createFails then [] else deleted
  {
    hide EraseWaits, Runner.Work, Runner.DownloadEvents, Runner.UploadEvents;
    var created := Runner.CreateEvent(req);
    ErasedEarly(created, Runner.Waited(req.name), [], deleted);
    assert [] + deleted == deleted && [created] + [] + deleted == [created] + deleted;
    assert RunBody(req, Runner.Caller)[..1] == [created];
  }

  lemma EndInUploads(req: Runner.RunRequest, f: Runner.Faults, k: nat, deleted: seq<Runner.Event>)
    requires !f.createFails && !f.waitFails && k == Runner.FirstFailure(f, |req.uploads|, 0) < |req.uploads|
    requires deleted == DeleteEvents(req)
    ensures EraseWaits(Runner.Meaning(req, f).trace) == RunBody(req, Runner.Caller)[..2 + k] + deleted
  {
    hide EraseWaits, Runner.Work, Runner.DownloadEvents, Runner.FirstFailure;
    var created := Runner.CreateEvent(req);
    var waited := Runner.Waited(req.name);
    var events := Runner.UploadEvents(req.name, req.uploads);
    var part := events[..k + 1];
    assert forall e :: e in part ==> e in events;
    ErasedEarly(created, waited, part, deleted);
    assert Runner.Meaning(req, f).trace == [created] + ([waited] + (part + deleted));
    assert RunBody(req, Runner.Caller)[..2 + k] == [created] + part;
  }

  lemma EarlyEnd(req: Runner.RunRequest, f: Runner.Faults)
    requires !Runner.UploadsSucceed(req, f)
    ensures var n := if f.createFails || f.waitFails then 1 else 2 + Runner.FirstFailure(f, |req.uploads|, 0);
      && n <= 1 + |req.uploads|
      && EraseWaits(Runner.Meaning(req, f).trace)
         == RunBody(req, Runner.Caller)[..n] + (if f.createFails then [] else DeleteEvents(req))
  {
    hide EraseWaits, Runner.Meaning, RunBody;
    var deleted := DeleteEvents(req);
    if f.createFails || f.waitFails {
      EndBeforeUploads(req, f, deleted);
    } else {
      var k := Runner.FirstFailure(f, |req.uploads|, 0);
      assert k < |req.uploads|;
      EndInUploads(req, f, k, deleted);
    }
  }

  /** Every workflow that was resolved and loaded, and whose request could be built,
      is prepared as the theorems above ask. */
  lemma LoadedWorkflowsArePrepared(h: Harness, keys: seq<string>, env: Expand.Env, parse: string -> Option<int>,
                                   w: Workflow, settings: Settings, outputDir: string, a: Answers)
    requires Resolve.Enumerates(keys, h.spec.sandbox.env)
    ensures var resolved := Resolve.Outcome(h, keys, env, parse);
      resolved.Ok? && LoadedFrom(w, resolved.value, settings, env) && HasRunConfig(w.desired.spec)
        && BuildFault(w, outputDir, a).None?
      ==> Prepared(w, outputDir, a)
  {
    hide Resolve.Outcome, BuildFault, LoadedFrom, HasRunConfig, Discharged, Resolve.Enumerates;
    var resolved := Resolve.Outcome(h, keys, env, parse);
    ResolveDischarges(h, keys, env, parse);
    if resolved.Ok? && LoadedFrom(w, resolved.value, settings, env) {
      LoadingKeepsLists(w, resolved.value, settings, env);
      DischargedByLists(resolved.value.spec, w.desired.spec);
    }
  }

  lemma DischargedByLists(s: Spec, d: Spec)
    requires s.payloads == d.payloads && s.outputs == d.outputs
    ensures Discharged(s) ==> Discharged(d)
  {
    hide OutputPaths.OutputSourceFault, OutputPaths.OutputDestinationFault, Paths.Clean, PayloadSound;
  }

  lemma LoadingKeepsLists(w: Workflow, resolved: Harness, settings: Settings, env: Expand.Env)
    requires LoadedFrom(w, resolved, settings, env)
    ensures w.desired.spec.payloads == resolved.spec.payloads && w.desired.spec.outputs == resolved.spec.outputs
    ensures HasRunConfig(w.desired.spec) ==> w.desired.spec.sandbox.image != ""
  {
    hide ResolveSandboxImage, ResolveField, RunConfigured, HasRunConfig;
  }
}
