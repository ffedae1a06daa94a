// buildRunRequest of cmd/workflow_apply.go: the workflow becomes a run request, and
// what was set up on the host is released again, newest first.
module Request {
  import opened Strings
  import opened Paths
  import opened Schema
  import opened Loading
  import opened OutputPaths
  import opened ResolveProofs
  import Runner

  datatype BuildError =
    | LocalImage | UnsupportedSubmodules | RunIdFailed | CloneFailed
    | PayloadDestinationRequired(i: nat) | PayloadHasBoth(i: nat) | PayloadHasNeither(i: nat)
    | PayloadSourceUnreadable(i: nat) | StagingFailed | StagingWriteFailed(i: nat)
    | PolicyUnreadable | OutputDirRequired | OutputDirUnresolvable | OutputDirNotMade | OutputEscapes(i: nat)

  /** What the host answers. */
  datatype Answers = Answers(
    isDir: string -> bool,
    runId: bool,
    checkout: Option<string>,
    readable: string -> bool,
    staging: Option<string>,
    writable: nat -> bool,
    policy: string -> Option<string>,
    absolute: string -> Option<string>,
    makeDir: string -> bool)

  datatype Held = Checkout(dir: string) | Staging(dir: string)

  /** The host: what has been set up and not yet released. */
  class Host {
    const answers: Answers
    var held: seq<Held>

    constructor (answers: Answers)
      ensures this.answers == answers && held == []
    {
      this.answers := answers;
      held := [];
    }

    method Acquire(h: Held)
      modifies this
      ensures held == old(held) + [h]
    {
      held := held + [h];
    }

    /** Cleanups only ever release what was set up last. */
    method Release(h: Held)
      requires held != [] && held[|held| - 1] == h
      modifies this
      ensures held == old(held)[..|old(held)| - 1]
    {
      held := held[..|held| - 1];
    }
  }

  /** The cleanup closure. */
  method Cleanup(host: Host, cleanups: seq<Held>)
    requires |cleanups| <= |host.held| && host.held[|host.held| - |cleanups|..] == cleanups
    modifies host
    ensures host.held == old(host.held)[..|old(host.held)| - |cleanups|]
  {
    ghost var all, base := host.held, |host.held| - |cleanups|;
    var i := |cleanups| - 1;
    while i >= 0
      invariant -1 <= i < |cleanups|
      invariant host.held == all[..base + i + 1]
    {
      assert all[base..][i] == all[base + i];
      host.Release(cleanups[i]);
      i := i - 1;
    }
  }

  // -------------------------------------------------------- the meaning

  /** strconv.Itoa on a natural number. */
  function Decimal(n: nat): string
    decreases n
  {
    var digit := ['0', '1', '2', '3', '4', '5', '6', '7', '8', '9'][n % 10];
    if n < 10 then [digit] else Decimal(n / 10) + [digit]
  }

  /** resolveSandboxImagePath. */
  function ImagePath(image: string, baseDir: string, a: Answers): string {
    if image == "" || IsAbs(image) then image
    else if a.isDir(JoinPath(baseDir, image)) then JoinPath(baseDir, image)
    else image
  }

  function HostPath(baseDir: string, p: string): string {
    if IsAbs(p) then p else JoinPath(baseDir, p)
  }

  function RepoFault(s: Source, a: Answers): Option<BuildError> {
    if s.repo == "" then None
    else if s.submodules != "" && s.submodules != "shallow" then Some(UnsupportedSubmodules)
    else if !a.runId then Some(RunIdFailed)
    else if a.checkout.None? then Some(CloneFailed)
    else None
  }

  function RepoUploads(s: Source, a: Answers): seq<Runner.Upload> {
    if s.repo == "" || a.checkout.None? then []
    else [Runner.Upload(a.checkout.value, if s.destination != "" then s.destination else "/sandbox")]
  }

  function PayloadFault(p: Payload, i: nat, baseDir: string, a: Answers): Option<BuildError> {
    if p.destination == "" then Some(PayloadDestinationRequired(i))
    else if p.source != "" && p.content != "" then Some(PayloadHasBoth(i))
    else if p.source != "" then
      if a.readable(HostPath(baseDir, p.source)) then None else Some(PayloadSourceUnreadable(i))
    else if p.content != "" then
      if a.staging.None? then Some(StagingFailed) else if a.writable(i) then None else Some(StagingWriteFailed(i))
    else Some(PayloadHasNeither(i))
  }

  function StagedName(i: nat): string {
    "payload-" + Decimal(i)
  }

  function PayloadUpload(p: Payload, i: nat, baseDir: string, a: Answers): Runner.Upload {
    Runner.Upload(
      if p.source != "" then HostPath(baseDir, p.source)
      else JoinPath(if a.staging.Some? then a.staging.value else "", StagedName(i)),
      p.destination)
  }

  function FirstPayloadFault(payloads: seq<Payload>, baseDir: string, a: Answers, n: nat): (e: Option<BuildError>)
    requires n <= |payloads|
    ensures e.None? <==> forall i :: 0 <= i < n ==> PayloadFault(payloads[i], i, baseDir, a).None?
    ensures e.Some? ==> exists i :: 0 <= i < n && PayloadFault(payloads[i], i, baseDir, a) == e
  {
    if n == 0 then None
    else
      var before := FirstPayloadFault(payloads, baseDir, a, n - 1);
      if before.Some? then before else PayloadFault(payloads[n - 1], n - 1, baseDir, a)
  }

  function PayloadUploads(payloads: seq<Payload>, baseDir: string, a: Answers): (us: seq<Runner.Upload>)
    ensures |us| == |payloads|
  {
    seq(|payloads|, i requires 0 <= i < |payloads| => PayloadUpload(payloads[i], i, baseDir, a))
  }

  function PolicyFault(s: Sandbox, baseDir: string, a: Answers): Option<BuildError> {
    if s.policy.Some? && s.policy.value.file != "" && a.policy(HostPath(baseDir, s.policy.value.file)).None?
    then Some(PolicyUnreadable) else None
  }

  function PolicyText(s: Sandbox, baseDir: string, a: Answers): string {
    if s.policy.Some? && s.policy.value.file != "" then
      var text := a.policy(HostPath(baseDir, s.policy.value.file));
      if text.Some? then text.value else ""
    else ""
  }

  /** The first of the first `n` that is false. */
  function FirstFalse(oks: seq<bool>, n: nat): (i: Option<nat>)
    requires n <= |oks|
    ensures i.Some? ==> i.value < n && !oks[i.value]
    ensures i.None? <==> forall k :: 0 <= k < n ==> oks[k]
  {
    if n == 0 then None
    else
      var before := FirstFalse(oks, n - 1);
      if before.Some? then before else if oks[n - 1] then None else Some(n - 1)
  }

  /** For each output, whether its joined destination stays within the root. */
  function StaysWithin(root: string, outputs: seq<Output>): (oks: seq<bool>)
    ensures |oks| == |outputs|
  {
    seq(|outputs|, i requires 0 <= i < |outputs| => PathWithin(root, JoinPath(root, outputs[i].destination)))
  }

  function OutputFault(outputs: seq<Output>, outputDir: string, a: Answers): Option<BuildError> {
    if outputs == [] then None
    else if outputDir == "" then Some(OutputDirRequired)
    else
      match a.absolute(outputDir)
      case None => Some(OutputDirUnresolvable)
      case Some(root) =>
        if !a.makeDir(root) then Some(OutputDirNotMade)
        else
          var escape := FirstFalse(StaysWithin(root, outputs), |outputs|);
          if escape.Some? then Some(OutputEscapes(escape.value)) else None
  }

  function DownloadTo(root: string, o: Output): Runner.Download {
    Runner.Download(o.source, JoinPath(root, o.destination), RequiredEnabled(o))
  }

  function Downloads(outputs: seq<Output>, root: string): (ds: seq<Runner.Download>)
    ensures |ds| == |outputs|
  {
    seq(|outputs|, i requires 0 <= i < |outputs| => DownloadTo(root, outputs[i]))
  }

  function OutputRoot(outputDir: string, a: Answers): string {
    var root := a.absolute(outputDir);
    if root.Some? then root.value else ""
  }

  /** The first thing that goes wrong, if anything does. */
  function BuildFault(w: Workflow, outputDir: string, a: Answers): Option<BuildError> {
    var s := w.desired.spec;
    if IsAbs(ImagePath(s.sandbox.image, w.baseDir, a)) then Some(LocalImage)
    else if RepoFault(s.source, a).Some? then RepoFault(s.source, a)
    else if FirstPayloadFault(s.payloads, w.baseDir, a, |s.payloads|).Some?
    then FirstPayloadFault(s.payloads, w.baseDir, a, |s.payloads|)
    else if PolicyFault(s.sandbox, w.baseDir, a).Some? then PolicyFault(s.sandbox, w.baseDir, a)
    else OutputFault(s.outputs, outputDir, a)
  }

  function Command(a: Agent): seq<string> {
    if a.kind == "" then [] else [a.kind] + a.args
  }

  function RequestFor(w: Workflow, outputDir: string, a: Answers): Runner.RunRequest {
    var s := w.desired.spec;
    Runner.RunRequest(
      w.desired.name, ImagePath(s.sandbox.image, w.baseDir, a), s.sandbox.providers, s.sandbox.env, Command(s.agent),
      RepoUploads(s.source, a) + PayloadUploads(s.payloads, w.baseDir, a),
      Downloads(s.outputs, OutputRoot(outputDir, a)),
      s.sandbox.tty, s.sandbox.keep, PolicyText(s.sandbox, w.baseDir, a))
  }

  // ------------------------------------------------- what the request says

  /** The image as written, unless the host has a directory of that name beside the workflow. */
  predicate ImageIs(image: string, written: string, baseDir: string, a: Answers) {
    image == if written != "" && !IsAbs(written) && a.isDir(JoinPath(baseDir, written)) then JoinPath(baseDir, written)
             else written
  }

  /** The policy is what the host reads from the file the document names, if it names one. */
  predicate PolicyIs(policy: string, s: Sandbox, baseDir: string, a: Answers) {
    if s.policy.Some? && s.policy.value.file != "" then
      var file := s.policy.value.file;
      a.policy(if IsAbs(file) then file else JoinPath(baseDir, file)) == Some(policy)
    else policy == ""
  }

  /** The upload of payload `i`: a named source, seen from the workflow's directory, or the
      file its content was staged in; in either case to the payload's destination. */
  predicate UploadIs(u: Runner.Upload, p: Payload, i: nat, baseDir: string, a: Answers) {
    && u.dst == p.destination
    && (p.source != "" ==> u.src == if IsAbs(p.source) then p.source else JoinPath(baseDir, p.source))
    && (p.source == "" ==> a.staging.Some? && u.src == JoinPath(a.staging.value, "payload-" + Decimal(i)))
  }

  /** The download of an output, optional only when the document says so. */
  predicate DownloadIs(d: Runner.Download, o: Output, root: string) {
    d.src == o.source && d.dst == JoinPath(root, o.destination) && (!d.required <==> o.required == Some(false))
  }

  /** Every field of a request, in the words of the document. */
  ghost predicate RequestSays(req: Runner.RunRequest, w: Workflow, outputDir: string, a: Answers) {
    var s := w.desired.spec;
    var first := if s.source.repo == "" then 0 else 1;
    && req.name == w.desired.name && ImageIs(req.image, s.sandbox.image, w.baseDir, a) && !IsAbs(req.image)
    && req.providers == s.sandbox.providers && req.env == s.sandbox.env
    && req.tty == s.sandbox.tty && req.keep == s.sandbox.keep
    && PolicyIs(req.policy, s.sandbox, w.baseDir, a)
    && (s.agent.kind == "" ==> req.command == [])
    && (s.agent.kind != "" ==> req.command == [s.agent.kind] + s.agent.args)
    && |req.uploads| == first + |s.payloads|
    && (s.source.repo != "" ==>
          && a.checkout == Some(req.uploads[0].src)
          && req.uploads[0].dst == if s.source.destination == "" then "/sandbox" else s.source.destination)
    && (forall i :: 0 <= i < |s.payloads| ==> UploadIs(req.uploads[first + i], s.payloads[i], i, w.baseDir, a))
    && |req.downloads| == |s.outputs|
    && (s.outputs != [] ==>
          && a.absolute(outputDir).Some?
          && forall i :: 0 <= i < |s.outputs| ==>
               DownloadIs(req.downloads[i], s.outputs[i], a.absolute(outputDir).value))
  }

  lemma UploadSays(p: Payload, i: nat, baseDir: string, a: Answers)
    requires PayloadFault(p, i, baseDir, a).None?
    ensures UploadIs(PayloadUpload(p, i, baseDir, a), p, i, baseDir, a)
  {
    hide JoinPath, IsAbs, Decimal;
  }

  lemma PayloadUploadsSay(payloads: seq<Payload>, baseDir: string, a: Answers)
    requires FirstPayloadFault(payloads, baseDir, a, |payloads|).None?
    ensures forall i :: 0 <= i < |payloads| ==>
      UploadIs(PayloadUploads(payloads, baseDir, a)[i], payloads[i], i, baseDir, a)
  {
    hide PayloadFault, UploadIs, PayloadUpload, FirstPayloadFault;
    forall i | 0 <= i < |payloads|
      ensures UploadIs(PayloadUploads(payloads, baseDir, a)[i], payloads[i], i, baseDir, a)
    {
      UploadSays(payloads[i], i, baseDir, a);
    }
  }

  lemma Behind(x: seq<Runner.Upload>, y: seq<Runner.Upload>)
    ensures forall i :: 0 <= i < |y| ==> (x + y)[|x| + i] == y[i]
  {}

  lemma UploadsSay(s: Spec, baseDir: string, a: Answers)
    requires RepoFault(s.source, a).None?
    requires FirstPayloadFault(s.payloads, baseDir, a, |s.payloads|).None?
    ensures var uploads := RepoUploads(s.source, a) + PayloadUploads(s.payloads, baseDir, a);
      var first := if s.source.repo == "" then 0 else 1;
      && |uploads| == first + |s.payloads|
      && (s.source.repo != "" ==>
            && a.checkout == Some(uploads[0].src)
            && uploads[0].dst == if s.source.destination == "" then "/sandbox" else s.source.destination)
      && (forall i :: 0 <= i < |s.payloads| ==> UploadIs(uploads[first + i], s.payloads[i], i, baseDir, a))
  {
    hide UploadIs, FirstPayloadFault, PayloadUploads;
    PayloadUploadsSay(s.payloads, baseDir, a);
    Behind(RepoUploads(s.source, a), PayloadUploads(s.payloads, baseDir, a));
  }

  /** A request that could be built says what the document says, field by field. */
  lemma RequestIsTheDocument(w: Workflow, outputDir: string, a: Answers)
    requires BuildFault(w, outputDir, a).None?
    ensures RequestSays(RequestFor(w, outputDir, a), w, outputDir, a)
  {
    hide JoinPath, IsAbs, Decimal, UploadIs, FirstPayloadFault, RepoFault, RepoUploads, PayloadUploads, StaysWithin,
      FirstFalse;
    UploadsSay(w.desired.spec, w.baseDir, a);
  }

  predicate SourceBuildable(s: Source, a: Answers) {
    s.repo != "" ==> (s.submodules == "" || s.submodules == "shallow") && a.runId && a.checkout.Some?
  }

  predicate PayloadBuildable(p: Payload, i: nat, baseDir: string, a: Answers) {
    && p.destination != "" && (p.source != "" <==> p.content == "")
    && (p.source != "" ==> a.readable(if IsAbs(p.source) then p.source else JoinPath(baseDir, p.source)))
    && (p.content != "" ==> a.staging.Some? && a.writable(i))
  }

  ghost predicate OutputsBuildable(outputs: seq<Output>, outputDir: string, a: Answers) {
    outputs != [] ==>
      && outputDir != "" && a.absolute(outputDir).Some? && a.makeDir(a.absolute(outputDir).value)
      && forall i :: 0 <= i < |outputs| ==>
           PathWithin(a.absolute(outputDir).value, JoinPath(a.absolute(outputDir).value, outputs[i].destination))
  }

  /** When a request can be built, whichever step would fail first. */
  ghost predicate Buildable(w: Workflow, outputDir: string, a: Answers) {
    var s := w.desired.spec;
    && !IsAbs(s.sandbox.image)
    && (s.sandbox.image != "" && a.isDir(JoinPath(w.baseDir, s.sandbox.image)) ==>
          !IsAbs(JoinPath(w.baseDir, s.sandbox.image)))
    && SourceBuildable(s.source, a)
    && (forall i :: 0 <= i < |s.payloads| ==> PayloadBuildable(s.payloads[i], i, w.baseDir, a))
    && (s.sandbox.policy.Some? && s.sandbox.policy.value.file != "" ==>
          var file := s.sandbox.policy.value.file;
          a.policy(if IsAbs(file) then file else JoinPath(w.baseDir, file)).Some?)
    && OutputsBuildable(s.outputs, outputDir, a)
  }

  lemma PayloadBuildableExactly(p: Payload, i: nat, baseDir: string, a: Answers)
    ensures PayloadFault(p, i, baseDir, a).None? <==> PayloadBuildable(p, i, baseDir, a)
  {
    hide JoinPath, IsAbs;
  }

  lemma OutputsBuildableExactly(outputs: seq<Output>, outputDir: string, a: Answers)
    ensures OutputFault(outputs, outputDir, a).None? <==> OutputsBuildable(outputs, outputDir, a)
  {
    hide JoinPath, PathWithin;
    var root := a.absolute(outputDir);
    if root.Some? {
      var oks := StaysWithin(root.value, outputs);
      assert forall i :: 0 <= i < |outputs| ==>
        oks[i] == PathWithin(root.value, JoinPath(root.value, outputs[i].destination));
    }
  }

  /** A request can be built exactly when each part of the document is fit for it. */
  lemma BuildableExactly(w: Workflow, outputDir: string, a: Answers)
    ensures BuildFault(w, outputDir, a).None? <==> Buildable(w, outputDir, a)
  {
    hide JoinPath, IsAbs, PayloadFault, PayloadBuildable, OutputFault, OutputsBuildable;
    var s := w.desired.spec;
    forall i | 0 <= i < |s.payloads|
      ensures PayloadFault(s.payloads[i], i, w.baseDir, a).None? <==> PayloadBuildable(s.payloads[i], i, w.baseDir, a)
    {
      PayloadBuildableExactly(s.payloads[i], i, w.baseDir, a);
    }
    OutputsBuildableExactly(s.outputs, outputDir, a);
  }

  // ----------------------------------------------------------- the method

  /** The source part: a checkout is set up when a repository is configured. */
  method BuildSource(s: Source, host: Host)
    returns (err: Option<BuildError>, uploads: seq<Runner.Upload>, cleanups: seq<Held>)
    modifies host
    ensures err == RepoFault(s, host.answers)
    ensures err.None? ==> uploads == RepoUploads(s, host.answers)
    ensures host.held == old(host.held) + cleanups
  {
    err, uploads, cleanups := None, [], [];
    if s.repo != "" {
      if s.submodules != "" && s.submodules != "shallow" {
        err := Some(UnsupportedSubmodules);
        return;
      }
      if !host.answers.runId {
        err := Some(RunIdFailed);
        return;
      }
      if host.answers.checkout.None? {
        err := Some(CloneFailed);
        return;
      }
      var dir := host.answers.checkout.value;
      host.Acquire(Checkout(dir));
      cleanups := cleanups + [Checkout(dir)];
      var upload := Runner.Upload(dir, "/sandbox");
      if s.destination != "" {
        upload := upload.(dst := s.destination);
      }
      uploads := uploads + [upload];
    }
  }

  /** The payload loop; one staging directory is made for the first inline content. */
  method BuildPayloads(payloads: seq<Payload>, baseDir: string, host: Host)
    returns (err: Option<BuildError>, uploads: seq<Runner.Upload>, cleanups: seq<Held>)
    modifies host
    ensures err == FirstPayloadFault(payloads, baseDir, host.answers, |payloads|)
    ensures err.None? ==> uploads == PayloadUploads(payloads, baseDir, host.answers)
    ensures host.held == old(host.held) + cleanups
  {
    hide HostPath, JoinPath, StagedName, IsAbs;
    var a := host.answers;
    err, uploads, cleanups := None, [], [];
    ghost var all := PayloadUploads(payloads, baseDir, a);
    var contentDir: Option<string> := None;
    for i := 0 to |payloads|
      invariant uploads == all[..i]
      invariant FirstPayloadFault(payloads, baseDir, a, i).None?
      invariant host.held == old(host.held) + cleanups
      invariant contentDir.Some? ==> contentDir == a.staging
    {
      var payload := payloads[i];
      PrefixGrows(all, i);
      FaultAtEnds(payloads, baseDir, a, i, |payloads|);
      err := PayloadFault(payload, i, baseDir, a);
      if payload.destination == "" || (payload.source != "" && payload.content != "") {
        return;
      }
      if payload.source != "" {
        if !a.readable(HostPath(baseDir, payload.source)) {
          return;
        }
        uploads := uploads + [Runner.Upload(HostPath(baseDir, payload.source), payload.destination)];
      } else if payload.content != "" {
        if contentDir.None? {
          if a.staging.None? {
            return;
          }
          host.Acquire(Staging(a.staging.value));
          cleanups := cleanups + [Staging(a.staging.value)];
          contentDir := a.staging;
        }
        if !a.writable(i) {
          return;
        }
        uploads := uploads + [Runner.Upload(JoinPath(contentDir.value, StagedName(i)), payload.destination)];
      } else {
        return;
      }
      assert all[i] == PayloadUpload(payload, i, baseDir, a);
    }
    err := None;
  }

  /** The first fault found is the overall one. */
  lemma {:induction false} FaultAtEnds(payloads: seq<Payload>, baseDir: string, a: Answers, i: nat, n: nat)
    requires i < n <= |payloads| && FirstPayloadFault(payloads, baseDir, a, i).None?
    ensures PayloadFault(payloads[i], i, baseDir, a).Some? ==>
      FirstPayloadFault(payloads, baseDir, a, n) == PayloadFault(payloads[i], i, baseDir, a)
    decreases n - i
  {
    hide PayloadFault;
    if i + 1 < n {
      FaultAtEnds(payloads, baseDir, a, i, n - 1);
    }
  }

  method BuildDownloads(outputs: seq<Output>, outputDir: string, host: Host)
    returns (err: Option<BuildError>, downloads: seq<Runner.Download>)
    ensures err == OutputFault(outputs, outputDir, host.answers)
    ensures err.None? ==> downloads == Downloads(outputs, OutputRoot(outputDir, host.answers))
  {
    hide PathWithin, JoinPath;
    err, downloads := None, [];
    if |outputs| > 0 {
      if outputDir == "" {
        return Some(OutputDirRequired), [];
      }
      var outputRoot := host.answers.absolute(outputDir);
      if outputRoot.None? {
        return Some(OutputDirUnresolvable), [];
      }
      var root := outputRoot.value;
      if !host.answers.makeDir(root) {
        return Some(OutputDirNotMade), [];
      }
      ghost var all, oks := Downloads(outputs, root), StaysWithin(root, outputs);
      for i := 0 to |outputs|
        invariant downloads == all[..i]
        invariant FirstFalse(oks, i).None?
      {
        PrefixGrows(all, i);
        FalseAtEnds(oks, i, |outputs|);
        var destination := JoinPath(root, outputs[i].destination);
        if !PathWithin(root, destination) {
          return Some(OutputEscapes(i)), [];
        }
        downloads := downloads + [Runner.Download(outputs[i].source, destination, RequiredEnabled(outputs[i]))];
      }
    }
  }

  lemma {:induction false} FalseAtEnds(oks: seq<bool>, i: nat, n: nat)
    requires i < n <= |oks| && FirstFalse(oks, i).None?
    ensures !oks[i] ==> FirstFalse(oks, n) == Some(i)
    decreases n - i
  {
    if i + 1 < n {
      FalseAtEnds(oks, i, n - 1);
    }
  }

  lemma FaultsInOrder(w: Workflow, outputDir: string, a: Answers)
    ensures var s, fault := w.desired.spec, BuildFault(w, outputDir, a);
      var payloads := FirstPayloadFault(s.payloads, w.baseDir, a, |s.payloads|);
      var policy := PolicyFault(s.sandbox, w.baseDir, a);
      if IsAbs(ImagePath(s.sandbox.image, w.baseDir, a)) then fault == Some(LocalImage)
      else if RepoFault(s.source, a).Some? then fault == RepoFault(s.source, a)
      else if payloads.Some? then fault == payloads
      else if policy.Some? then fault == policy
      else fault == OutputFault(s.outputs, outputDir, a)
  {
    hide ImagePath, IsAbs, RepoFault, FirstPayloadFault, PolicyFault, OutputFault;
  }

  lemma RequestOfParts(w: Workflow, outputDir: string, a: Answers, req: Runner.RunRequest)
    requires var s := w.desired.spec;
      req == Runner.RunRequest(
        w.desired.name, ImagePath(s.sandbox.image, w.baseDir, a), s.sandbox.providers, s.sandbox.env, Command(s.agent),
        RepoUploads(s.source, a) + PayloadUploads(s.payloads, w.baseDir, a),
        Downloads(s.outputs, OutputRoot(outputDir, a)),
        s.sandbox.tty, s.sandbox.keep, PolicyText(s.sandbox, w.baseDir, a))
    ensures req == RequestFor(w, outputDir, a)
  {
    hide ImagePath, RepoUploads, PayloadUploads, OutputRoot, PolicyText, Downloads;
  }

  /** buildRunRequest: on failure everything set up so far has been released; on
      success `cleanups` is what the caller still has to release. */
  method BuildRunRequest(w: Workflow, outputDir: string, host: Host)
    returns (r: Result<Runner.RunRequest, BuildError>, cleanups: seq<Held>)
    modifies host
    ensures r == match BuildFault(w, outputDir, host.answers)
                 case Some(e) => Err(e)
                 case None => Ok(RequestFor(w, outputDir, host.answers))
    ensures r.Ok? ==> RequestSays(r.value, w, outputDir, host.answers)
    ensures host.held == old(host.held) + cleanups
    ensures r.Err? ==> cleanups == []
  {
    hide ImagePath, IsAbs, RepoFault, RepoUploads, PayloadUploads, FirstPayloadFault, OutputFault, OutputRoot, HostPath,
      RequestSays, Downloads, BuildFault, RequestFor;
    FaultsInOrder(w, outputDir, host.answers);
    var s := w.desired.spec;
    var image := ImagePath(s.sandbox.image, w.baseDir, host.answers);
    cleanups := [];
    if IsAbs(image) {
      return Err(LocalImage), [];
    }
    var err, uploads, more, payloadUploads, downloads;
    err, uploads, more := BuildSource(s.source, host);
    cleanups := cleanups + more;
    if err.Some? {
      Cleanup(host, cleanups);
      return Err(err.value), [];
    }
    err, payloadUploads, more := BuildPayloads(s.payloads, w.baseDir, host);
    cleanups := cleanups + more;
    if err.Some? {
      Cleanup(host, cleanups);
      return Err(err.value), [];
    }
    uploads := uploads + payloadUploads;
    var policyText := "";
    if s.sandbox.policy.Some? && s.sandbox.policy.value.file != "" {
      var text := host.answers.policy(HostPath(w.baseDir, s.sandbox.policy.value.file));
      if text.None? {
        Cleanup(host, cleanups);
        return Err(PolicyUnreadable), [];
      }
      policyText := text.value;
    }
    var command := if s.agent.kind != "" then [s.agent.kind] + s.agent.args else [];
    err, downloads := BuildDownloads(s.outputs, outputDir, host);
    if err.Some? {
      Cleanup(host, cleanups);
      return Err(err.value), [];
    }
    r := Ok(Runner.RunRequest(
      w.desired.name, image, s.sandbox.providers, s.sandbox.env, command, uploads, downloads,
      s.sandbox.tty, s.sandbox.keep, policyText));
    RequestOfParts(w, outputDir, host.answers, r.value);
    RequestIsTheDocument(w, outputDir, host.answers);
  }

  // ----------------------------------------------- what resolution rules out

  predicate ShapeError(e: BuildError) {
    e.PayloadDestinationRequired? || e.PayloadHasBoth? || e.PayloadHasNeither? || e.OutputEscapes?
  }

  /** For a resolved document the payload-shape and escape errors cannot occur,
      whatever the host answers. (filepath.Abs returns an absolute path.) */
  lemma ResolvedNeverMisshapen(w: Workflow, outputDir: string, a: Answers)
    requires Discharged(w.desired.spec)
    requires forall root :: a.absolute(outputDir) == Some(root) ==> IsAbs(root)
    ensures BuildFault(w, outputDir, a).Some? ==> !ShapeError(BuildFault(w, outputDir, a).value)
  {
    hide HostPath, ImagePath, HasTraversal, OutputSourceFault, OutputDestinationFault, Clean, IsAbs, PathWithin,
      JoinPath, Components;
    var s := w.desired.spec;
    forall i | 0 <= i < |s.payloads|
      ensures PayloadFault(s.payloads[i], i, w.baseDir, a).Some? ==>
        !ShapeError(PayloadFault(s.payloads[i], i, w.baseDir, a).value)
    {
      assert s.payloads[i] in s.payloads;
    }
    var root := a.absolute(outputDir);
    if root.Some? {
      forall i | 0 <= i < |s.outputs| ensures PathWithin(root.value, JoinPath(root.value, s.outputs[i].destination)) {
        assert s.outputs[i] in s.outputs;
        DestinationIsBelow(root.value, s.outputs[i].destination);
      }
    }
  }

  /** Where the outputs of a resolved document go: strictly below the output root and
      to pairwise different places; and each source is one the download accepts. */
  lemma OutputsArePlaced(s: Spec, root: string)
    requires Discharged(s) && IsAbs(root)
    ensures var ds := Downloads(s.outputs, root);
      && (forall i :: 0 <= i < |ds| ==>
            && Components(root) < Components(ds[i].dst)
            && SandboxRelativePath(ds[i].src).Ok?)
      && (forall i, j :: 0 <= i < j < |ds| ==> Components(ds[i].dst) != Components(ds[j].dst))
  {
    hide OutputSourceFault, OutputDestinationFault, Clean, IsAbs, JoinPath, Components, SandboxRelativePath;
    var ds := Downloads(s.outputs, root);
    forall i | 0 <= i < |ds| ensures Components(root) < Components(ds[i].dst) && SandboxRelativePath(ds[i].src).Ok? {
      var o := s.outputs[i];
      assert o in s.outputs && ds[i] == DownloadTo(root, o);
      SourceChecksAgree(o.source);
      DestinationIsBelow(root, o.destination);
    }
    forall i, j | 0 <= i < j < |ds| ensures Components(ds[i].dst) != Components(ds[j].dst) {
      assert s.outputs[i] in s.outputs && s.outputs[j] in s.outputs;
      DistinctDestinations(root, s.outputs[i].destination, s.outputs[j].destination);
    }
  }
}
