// Run of internal/run/runner.go against a client whose answers are fixed in advance
// by a fault pattern, and what holds for every fault pattern.
module Runner {
  import opened Strings

  datatype Upload = Upload(src: string, dst: string)

  datatype Download = Download(src: string, dst: string, required: bool)

  datatype RunRequest = RunRequest(
    name: string, image: string, providers: seq<string>, env: map<string, string>, command: seq<string>,
    uploads: seq<Upload>, downloads: seq<Download>, tty: bool, keep: bool, policy: string)

  /** The context a call is made under: the caller's, or one that outlives it. */
  datatype Context = Caller | Detached

  datatype Event =
    | Created(name: string, image: string, providers: seq<string>, env: map<string, string>, policy: string)
    | Waited(name: string)
    | Uploaded(name: string, src: string, dst: string)
    | Executed(name: string, command: seq<string>, interactive: bool)
    | Downloaded(context: Context, name: string, src: string, dst: string)
    | Deleted(context: Context, name: string)

  datatype ExecResult = Exited(code: int) | ExecError

  datatype DownloadResult = Fetched | SourceNotFound | DownloadError

  /** Everything the client and the caller's context will do: which calls fail, how
      the command ends, and whether the context is cancelled by then. */
  datatype Faults = Faults(
    createFails: bool, waitFails: bool, uploadFails: nat -> bool, exec: ExecResult,
    download: nat -> DownloadResult, deleteFails: bool, cancelled: bool)

  datatype RunError =
    | CreateFailed | WaitFailed | UploadFailed(i: nat)
    | ExecutionFailed | ExitStatus(code: int) | DownloadFailed(i: nat) | DeleteFailed

  /** The gateway client: it records every call that is made. */
  class Client {
    const faults: Faults
    var trace: seq<Event>

    constructor (faults: Faults)
      ensures this.faults == faults && trace == []
    {
      this.faults := faults;
      trace := [];
    }

    method CreateSandbox(req: RunRequest) returns (failed: bool)
      modifies this
      ensures trace == old(trace) + [Created(req.name, req.image, req.providers, req.env, req.policy)]
      ensures failed == faults.createFails
    {
      trace := trace + [Created(req.name, req.image, req.providers, req.env, req.policy)];
      failed := faults.createFails;
    }

    method WaitSandboxReady(name: string) returns (failed: bool)
      modifies this
      ensures trace == old(trace) + [Waited(name)] && failed == faults.waitFails
    {
      trace := trace + [Waited(name)];
      failed := faults.waitFails;
    }

    method UploadPath(name: string, i: nat, upload: Upload) returns (failed: bool)
      modifies this
      ensures trace == old(trace) + [Uploaded(name, upload.src, upload.dst)] && failed == faults.uploadFails(i)
    {
      trace := trace + [Uploaded(name, upload.src, upload.dst)];
      failed := faults.uploadFails(i);
    }

    /** ExecSandbox, or the interactive form. */
    method Exec(name: string, command: seq<string>, interactive: bool) returns (r: ExecResult)
      modifies this
      ensures trace == old(trace) + [Executed(name, command, interactive)] && r == faults.exec
    {
      trace := trace + [Executed(name, command, interactive)];
      r := faults.exec;
    }

    method DownloadPath(context: Context, name: string, i: nat, download: Download) returns (r: DownloadResult)
      modifies this
      ensures trace == old(trace) + [Downloaded(context, name, download.src, download.dst)] && r == faults.download(i)
    {
      trace := trace + [Downloaded(context, name, download.src, download.dst)];
      r := faults.download(i);
    }

    method Delete(context: Context, name: string) returns (failed: bool)
      modifies this
      ensures trace == old(trace) + [Deleted(context, name)] && failed == faults.deleteFails
    {
      trace := trace + [Deleted(context, name)];
      failed := faults.deleteFails;
    }
  }

  // -------------------------------------------------------- the meaning

  datatype Outcome = Outcome(trace: seq<Event>, errors: seq<RunError>)

  function Then(a: Outcome, b: Outcome): Outcome {
    Outcome(a.trace + b.trace, a.errors + b.errors)
  }

  function CreateEvent(req: RunRequest): Event {
    Created(req.name, req.image, req.providers, req.env, req.policy)
  }

  /** How many uploads are attempted: up to and including the first that fails. */
  function FirstFailure(f: Faults, n: nat, i: nat): (k: nat)
    requires i <= n
    ensures i <= k <= n
    ensures forall j :: i <= j < k ==> !f.uploadFails(j)
    ensures k < n ==> f.uploadFails(k)
    decreases n - i
  {
    if i == n || f.uploadFails(i) then i else FirstFailure(f, n, i + 1)
  }

  function UploadEvents(name: string, uploads: seq<Upload>): (events: seq<Event>)
    ensures |events| == |uploads|
  {
    seq(|uploads|, i requires 0 <= i < |uploads| => Uploaded(name, uploads[i].src, uploads[i].dst))
  }

  function DownloadEvents(context: Context, name: string, downloads: seq<Download>): (events: seq<Event>)
    ensures |events| == |downloads|
  {
    seq(|downloads|, i requires 0 <= i < |downloads| => Downloaded(context, name, downloads[i].src, downloads[i].dst))
  }

  /** A download that counts as failed: anything but a missing optional source. */
  predicate Counts(d: Download, r: DownloadResult) {
    r.DownloadError? || (r.SourceNotFound? && d.required)
  }

  function DownloadErrors(downloads: seq<Download>, f: Faults, n: nat): seq<RunError>
    requires n <= |downloads|
  {
    if n == 0 then []
    else
      DownloadErrors(downloads, f, n - 1)
      + if Counts(downloads[n - 1], f.download(n - 1)) then [DownloadFailed(n - 1)] else []
  }

  function ExecErrors(req: RunRequest, f: Faults): seq<RunError> {
    if req.command == [] then []
    else
      match f.exec
      case ExecError => [ExecutionFailed]
      case Exited(code) => if code == 0 then [] else [ExitStatus(code)]
  }

  function DownloadContext(req: RunRequest, f: Faults): Context {
    if ExecErrors(req, f) != [] || f.cancelled then Detached else Caller
  }

  /** From execution on: nothing here stops early. */
  function Work(req: RunRequest, f: Faults): Outcome {
    Outcome(
      (if req.command == [] then [] else [Executed(req.name, req.command, req.tty)])
      + DownloadEvents(DownloadContext(req, f), req.name, req.downloads),
      ExecErrors(req, f) + DownloadErrors(req.downloads, f, |req.downloads|))
  }

  /** Between creation and deletion. */
  function Inside(req: RunRequest, f: Faults): Outcome {
    if f.waitFails then Outcome([Waited(req.name)], [WaitFailed])
    else
      var k := FirstFailure(f, |req.uploads|, 0);
      var events := UploadEvents(req.name, req.uploads);
      if k < |req.uploads| then Outcome([Waited(req.name)] + events[..k + 1], [UploadFailed(k)])
      else Then(Outcome([Waited(req.name)] + events, []), Work(req, f))
  }

  function Cleanup(req: RunRequest, f: Faults): Outcome {
    if req.keep then Outcome([], [])
    else Outcome([Deleted(Detached, req.name)], if f.deleteFails then [DeleteFailed] else [])
  }

  function Meaning(req: RunRequest, f: Faults): Outcome {
    var create := [CreateEvent(req)];
    if f.createFails then Outcome(create, [CreateFailed])
    else Then(Outcome(create, []), Then(Inside(req, f), Cleanup(req, f)))
  }

  // ----------------------------------------------------------- the method

  /** Run. The deferred deletion is the statement after the body it is deferred in. */
  method Run(client: Client, req: RunRequest) returns (errors: seq<RunError>)
    modifies client
    ensures client.trace == old(client.trace) + Meaning(req, client.faults).trace
    ensures errors == Meaning(req, client.faults).errors
  {
    hide Inside;
    var failed := client.CreateSandbox(req);
    if failed {
      return [CreateFailed];
    }
    errors := RunInside(client, req);
    if !req.keep {
      failed := client.Delete(Detached, req.name);
      if failed {
        errors := errors + [DeleteFailed];
      }
    }
  }

  method RunInside(client: Client, req: RunRequest) returns (errors: seq<RunError>)
    modifies client
    ensures client.trace == old(client.trace) + Inside(req, client.faults).trace
    ensures errors == Inside(req, client.faults).errors
  {
    hide Work;
    ghost var f := client.faults;
    var failed := client.WaitSandboxReady(req.name);
    if failed {
      return [WaitFailed];
    }
    ghost var before, events := client.trace, UploadEvents(req.name, req.uploads);
    ghost var k := FirstFailure(f, |req.uploads|, 0);
    for i := 0 to |req.uploads|
      invariant client.trace == before + events[..i]
      invariant i <= k
    {
      PrefixGrows(events, i);
      failed := client.UploadPath(req.name, i, req.uploads[i]);
      if failed {
        return [UploadFailed(i)];
      }
    }
    assert events[..|req.uploads|] == events;
    errors := RunWork(client, req);
  }

  method RunCommand(client: Client, req: RunRequest) returns (errors: seq<RunError>)
    modifies client
    ensures client.trace ==
      old(client.trace) + if req.command == [] then [] else [Executed(req.name, req.command, req.tty)]
    ensures errors == ExecErrors(req, client.faults)
  {
    errors := [];
    if |req.command| > 0 {
      var r := client.Exec(req.name, req.command, req.tty);
      match r {
        case ExecError => errors := [ExecutionFailed];
        case Exited(code) => if code != 0 { errors := [ExitStatus(code)]; }
      }
    }
  }

  method RunWork(client: Client, req: RunRequest) returns (errors: seq<RunError>)
    modifies client
    ensures client.trace == old(client.trace) + Work(req, client.faults).trace
    ensures errors == Work(req, client.faults).errors
  {
    hide ExecErrors, Counts;
    errors := RunCommand(client, req);
    if |req.downloads| == 0 {
      return;
    }
    var context := Caller;
    if errors != [] || client.faults.cancelled {
      context := Detached;
    }
    ghost var before, execErrors, events := client.trace, errors, DownloadEvents(context, req.name, req.downloads);
    for i := 0 to |req.downloads|
      invariant client.trace == before + events[..i]
      invariant errors == execErrors + DownloadErrors(req.downloads, client.faults, i)
    {
      PrefixGrows(events, i);
      var e := RunDownload(client, context, req.name, i, req.downloads[i]);
      errors := errors + e;
    }
    assert events[..|req.downloads|] == events;
  }

  /** The body of the download loop. */
  method RunDownload(client: Client, context: Context, name: string, i: nat, download: Download)
    returns (errors: seq<RunError>)
    modifies client
    ensures client.trace == old(client.trace) + [Downloaded(context, name, download.src, download.dst)]
    ensures errors == if Counts(download, client.faults.download(i)) then [DownloadFailed(i)] else []
  {
    errors := [];
    var r := client.DownloadPath(context, name, i, download);
    if !r.Fetched? {
      if !download.required && r.SourceNotFound? {
        return;
      }
      errors := [DownloadFailed(i)];
    }
  }

  // ------------------------------------------- every fault pattern

  datatype Kind = CreateCall | WaitCall | UploadCall | ExecCall | DownloadCall | DeleteCall

  function KindOf(e: Event): Kind {
    match e
    case Created(_, _, _, _, _) => CreateCall
    case Waited(_) => WaitCall
    case Uploaded(_, _, _) => UploadCall
    case Executed(_, _, _) => ExecCall
    case Downloaded(_, _, _, _) => DownloadCall
    case Deleted(_, _) => DeleteCall
  }

  /** The calls of one kind, in the order they were made. */
  function Calls(t: seq<Event>, kind: Kind): seq<Event> {
    if t == [] then [] else (if KindOf(t[0]) == kind then [t[0]] else []) + Calls(t[1..], kind)
  }

  lemma CallsOf(head: Event, rest: seq<Event>, kind: Kind)
    ensures Calls([head] + rest, kind) == (if KindOf(head) == kind then [head] else []) + Calls(rest, kind)
    ensures Calls([], kind) == []
  {
    hide KindOf;
    assert ([head] + rest)[1..] == rest;
  }

  lemma {:induction false} CallsConcat(a: seq<Event>, b: seq<Event>, kind: Kind)
    ensures Calls(a + b, kind) == Calls(a, kind) + Calls(b, kind)
    decreases a
  {
    if a == [] {
      hide KindOf;
      assert a + b == b;
    } else {
      hide KindOf, Calls;
      CallsConcat(a[1..], b, kind);
      CallsOf(a[0], a[1..], kind);
      CallsOf(a[0], a[1..] + b, kind);
      assert a == [a[0]] + a[1..] && a + b == [a[0]] + (a[1..] + b);
    }
  }

  lemma {:induction false} CallsOfOneKind(t: seq<Event>, own: Kind, kind: Kind)
    requires forall e :: e in t ==> KindOf(e) == own
    ensures Calls(t, kind) == if kind == own then t else []
    decreases t
  {
    hide KindOf;
    if t != [] {
      assert t[0] in t;
      CallsOfOneKind(t[1..], own, kind);
      assert t == [t[0]] + t[1..];
    }
  }

  /** A trace in its phases: create and wait, uploads, command, downloads, deletion. */
  datatype Phases = Phases(front: seq<Event>, ups: seq<Event>, exec: seq<Event>, downs: seq<Event>, deleted: seq<Event>)

  function Whole(p: Phases): seq<Event> {
    p.front + p.ups + p.exec + p.downs + p.deleted
  }

  predicate AllOfKind(t: seq<Event>, kind: Kind) {
    forall e :: e in t ==> KindOf(e) == kind
  }

  predicate Phased(p: Phases) {
    && (forall e :: e in p.front ==> KindOf(e) == CreateCall || KindOf(e) == WaitCall)
    && AllOfKind(p.ups, UploadCall) && AllOfKind(p.exec, ExecCall)
    && AllOfKind(p.downs, DownloadCall) && AllOfKind(p.deleted, DeleteCall)
  }

  lemma {:induction false} NoSuchCalls(t: seq<Event>, kind: Kind)
    requires forall e :: e in t ==> KindOf(e) != kind
    ensures Calls(t, kind) == []
    decreases t
  {
    hide KindOf;
    if t != [] {
      assert t[0] in t;
      NoSuchCalls(t[1..], kind);
    }
  }

  lemma CallsOfPhases(p: Phases, kind: Kind)
    requires Phased(p) && kind != CreateCall && kind != WaitCall
    ensures Calls(Whole(p), kind)
         == match kind case UploadCall => p.ups case ExecCall => p.exec case DownloadCall => p.downs case _ => p.deleted
  {
    hide KindOf, Calls;
    CallsConcat(p.front, p.ups, kind);
    CallsConcat(p.front + p.ups, p.exec, kind);
    CallsConcat(p.front + p.ups + p.exec, p.downs, kind);
    CallsConcat(p.front + p.ups + p.exec + p.downs, p.deleted, kind);
    NoSuchCalls(p.front, kind);
    CallsOfOneKind(p.ups, UploadCall, kind);
    CallsOfOneKind(p.exec, ExecCall, kind);
    CallsOfOneKind(p.downs, DownloadCall, kind);
    CallsOfOneKind(p.deleted, DeleteCall, kind);
  }

  lemma InParts(a: seq<Event>, b: seq<Event>, c: seq<Event>, d: seq<Event>, at: nat)
    requires at < |a + b + c + d|
    ensures at < |a| ==> (a + b + c + d)[at] in a
    ensures |a| <= at < |a + b| ==> (a + b + c + d)[at] in b
    ensures |a + b + c| <= at ==> (a + b + c + d)[at] in d
  {}

  lemma BeforeWork(a: seq<Event>, work: seq<Event>, d: seq<Event>, at: nat)
    requires |a| <= at < |a + work|
    ensures (a + work + d)[..at] == a + work[..at - |a|]
    ensures forall e :: e in work[..at - |a|] ==> e in work
  {}

  lemma WorkIsAt(p: Phases, at: nat)
    requires Phased(p) && at < |Whole(p)| && (Whole(p)[at].Executed? || Whole(p)[at].Downloaded?)
    ensures Whole(p) == p.front + p.ups + (p.exec + p.downs) + p.deleted
    ensures |p.front + p.ups| <= at < |p.front + p.ups + (p.exec + p.downs)|
  {
    assert Whole(p) == p.front + p.ups + (p.exec + p.downs) + p.deleted;
    InParts(p.front, p.ups, p.exec + p.downs, p.deleted, at);
  }

  /** Where work is found in a phased trace, all uploads lie before it. */
  lemma WorkInPhases(p: Phases, at: nat)
    requires Phased(p) && at < |Whole(p)| && (Whole(p)[at].Executed? || Whole(p)[at].Downloaded?)
    ensures p.exec + p.downs != []
    ensures Calls(Whole(p)[..at], UploadCall) == p.ups
  {
    hide Calls;
    WorkIsAt(p, at);
    var front, work := p.front + p.ups, p.exec + p.downs;
    BeforeWork(front, work, p.deleted, at);
    var between := work[..at - |front|];
    hide Whole;
    CallsConcat(front, between, UploadCall);
    CallsConcat(p.front, p.ups, UploadCall);
    NoSuchCalls(between, UploadCall);
    NoSuchCalls(p.front, UploadCall);
    CallsOfOneKind(p.ups, UploadCall, UploadCall);
  }

  predicate UploadsSucceed(req: RunRequest, f: Faults) {
    !f.createFails && !f.waitFails && forall i: nat :: i < |req.uploads| ==> !f.uploadFails(i)
  }

  /** The command was run and did not end with status zero, or the caller's context is over. */
  predicate NeedsDetachedDownloads(req: RunRequest, f: Faults) {
    f.cancelled || (req.command != [] && f.exec != Exited(0))
  }

  lemma DetachedWhenNeeded(req: RunRequest, f: Faults)
    ensures DownloadContext(req, f) == if NeedsDetachedDownloads(req, f) then Detached else Caller
  {}

  /** The events after creation when the sandbox became ready and every upload
      succeeded: all uploads, then the command, then every download, whatever happens. */
  function Lifecycle(req: RunRequest, context: Context): seq<Event> {
    [CreateEvent(req), Waited(req.name)]
    + UploadEvents(req.name, req.uploads)
    + (if req.command == [] then [] else [Executed(req.name, req.command, req.tty)])
    + DownloadEvents(context, req.name, req.downloads)
    + (if req.keep then [] else [Deleted(Detached, req.name)])
  }

  lemma FullLifecycle(req: RunRequest, f: Faults)
    requires UploadsSucceed(req, f)
    ensures Meaning(req, f).trace == Lifecycle(req, if NeedsDetachedDownloads(req, f) then Detached else Caller)
    ensures Meaning(req, f).errors
         == ExecErrors(req, f) + DownloadErrors(req.downloads, f, |req.downloads|)
            + if !req.keep && f.deleteFails then [DeleteFailed] else []
  {
    hide UploadEvents, DownloadEvents, DownloadErrors, ExecErrors, DownloadContext, NeedsDetachedDownloads;
    DetachedWhenNeeded(req, f);
    assert FirstFailure(f, |req.uploads|, 0) == |req.uploads|;
  }

  /** How many uploads are attempted. */
  function Attempts(req: RunRequest, f: Faults): (n: nat)
    ensures n <= |req.uploads|
  {
    if f.createFails || f.waitFails then 0
    else
      var k := FirstFailure(f, |req.uploads|, 0);
      if k < |req.uploads| then k + 1 else k
  }

  /** UploadsSucceed, decided by where the uploads stop. */
  predicate UploadsSucceedBy(req: RunRequest, f: Faults) {
    !f.createFails && !f.waitFails && FirstFailure(f, |req.uploads|, 0) == |req.uploads|
  }

  lemma SameSuccess(req: RunRequest, f: Faults)
    ensures UploadsSucceedBy(req, f) <==> UploadsSucceed(req, f)
    ensures UploadsSucceed(req, f) ==> Attempts(req, f) == |req.uploads|
  {}

  function PhasesOf(req: RunRequest, f: Faults): Phases {
    Phases(
      [CreateEvent(req)] + (if f.createFails then [] else [Waited(req.name)]),
      UploadEvents(req.name, req.uploads)[..Attempts(req, f)],
      if UploadsSucceedBy(req, f) && req.command != [] then [Executed(req.name, req.command, req.tty)] else [],
      if UploadsSucceedBy(req, f) then DownloadEvents(DownloadContext(req, f), req.name, req.downloads) else [],
      if f.createFails || req.keep then [] else [Deleted(Detached, req.name)])
  }

  lemma PhasesAreKinds(req: RunRequest, f: Faults)
    ensures Phased(PhasesOf(req, f))
  {
    hide FirstFailure, Attempts, UploadsSucceedBy, DownloadContext;
  }

  lemma EarlyTrace(req: RunRequest, f: Faults)
    requires !UploadsSucceedBy(req, f)
    ensures Meaning(req, f).trace == Whole(PhasesOf(req, f))
  {
    hide DownloadEvents, Work;
    var events := UploadEvents(req.name, req.uploads);
    assert events[..0] == [];
    var p := PhasesOf(req, f);
    assert Whole(p) == p.front + p.ups + p.deleted;
    if !f.createFails {
      assert Meaning(req, f).trace ==
        [CreateEvent(req)] + (Inside(req, f).trace + p.deleted);
      assert Inside(req, f).trace == [Waited(req.name)] + p.ups;
    }
  }

  /** The whole trace, phase by phase. */
  lemma TraceInPhases(req: RunRequest, f: Faults)
    ensures Meaning(req, f).trace == Whole(PhasesOf(req, f))
  {
    hide UploadEvents, DownloadEvents, FirstFailure, ExecErrors, Meaning;
    SameSuccess(req, f);
    if UploadsSucceedBy(req, f) {
      DetachedWhenNeeded(req, f);
      FullLifecycle(req, f);
      var events := UploadEvents(req.name, req.uploads);
      assert events[..|req.uploads|] == events;
      assert [CreateEvent(req)] + [Waited(req.name)]
          == [CreateEvent(req), Waited(req.name)];
    } else {
      EarlyTrace(req, f);
    }
  }

  /** Which calls are made, for every fault pattern: uploads up to and including the
      first that fails; the command once, and every download in order, exactly when all
      uploads succeeded, whatever happens to them; and a created sandbox that is not
      kept is deleted exactly once, last, under a context that outlives the caller's. */
  lemma CallsMade(req: RunRequest, f: Faults)
    ensures var t := Meaning(req, f).trace;
      && Calls(t, UploadCall) == UploadEvents(req.name, req.uploads)[..Attempts(req, f)]
      && Calls(t, ExecCall) ==
        (if UploadsSucceed(req, f) && req.command != [] then [Executed(req.name, req.command, req.tty)] else [])
      && Calls(t, DownloadCall) ==
        (if !UploadsSucceed(req, f) then []
         else DownloadEvents(if NeedsDetachedDownloads(req, f) then Detached else Caller, req.name, req.downloads))
      && Calls(t, DeleteCall) == (if f.createFails || req.keep then [] else [Deleted(Detached, req.name)])
      && (!f.createFails && !req.keep ==> t[|t| - 1] == Deleted(Detached, req.name))
  {
    hide Meaning, Calls, FirstFailure, Attempts, UploadsSucceed, UploadsSucceedBy, DownloadContext, UploadEvents,
      DownloadEvents;
    var p := PhasesOf(req, f);
    DetachedWhenNeeded(req, f);
    TraceInPhases(req, f);
    SameSuccess(req, f);
    PhasesAreKinds(req, f);
    hide Phased;
    CallsOfPhases(p, UploadCall);
    CallsOfPhases(p, ExecCall);
    CallsOfPhases(p, DownloadCall);
    CallsOfPhases(p, DeleteCall);
  }

  /** Nothing is executed or downloaded before every upload has been made and has
      succeeded. */
  lemma WorkFollowsUploads(req: RunRequest, f: Faults, at: nat)
    requires at < |Meaning(req, f).trace|
    requires Meaning(req, f).trace[at].Executed? || Meaning(req, f).trace[at].Downloaded?
    ensures UploadsSucceed(req, f)
    ensures Calls(Meaning(req, f).trace[..at], UploadCall) == UploadEvents(req.name, req.uploads)
  {
    hide Meaning, Calls, FirstFailure, Attempts, UploadsSucceed, UploadsSucceedBy, DownloadContext, Phased, Whole,
      UploadEvents, DownloadEvents;
    TraceInPhases(req, f);
    SameSuccess(req, f);
    PhasesAreKinds(req, f);
    WorkInPhases(PhasesOf(req, f), at);
    var events := UploadEvents(req.name, req.uploads);
    assert events[..|req.uploads|] == events;
  }

  /** Which failures a run counts. */
  predicate CountedFailure(req: RunRequest, f: Faults, e: RunError) {
    match e
    case CreateFailed => f.createFails
    case WaitFailed => !f.createFails && f.waitFails
    case UploadFailed(i) =>
      && !f.createFails && !f.waitFails
      && i < |req.uploads| && f.uploadFails(i) && forall j: nat :: j < i ==> !f.uploadFails(j)
    case ExecutionFailed => UploadsSucceed(req, f) && req.command != [] && f.exec.ExecError?
    case ExitStatus(code) => UploadsSucceed(req, f) && req.command != [] && f.exec == Exited(code) && code != 0
    case DownloadFailed(i) =>
      && UploadsSucceed(req, f) && i < |req.downloads| && f.download(i) != Fetched
      && (f.download(i) == SourceNotFound ==> req.downloads[i].required)
    case DeleteFailed => !f.createFails && !req.keep && f.deleteFails
  }

  lemma {:induction false} DownloadErrorMembers(downloads: seq<Download>, f: Faults, n: nat)
    requires n <= |downloads|
    ensures forall e :: e in DownloadErrors(downloads, f, n) <==>
      e.DownloadFailed? && e.i < n && Counts(downloads[e.i], f.download(e.i))
  {
    if n > 0 {
      DownloadErrorMembers(downloads, f, n - 1);
    }
  }

  lemma FailuresOfFullRun(req: RunRequest, f: Faults, e: RunError)
    requires UploadsSucceed(req, f)
    ensures e in Meaning(req, f).errors <==> CountedFailure(req, f, e)
  {
    hide Meaning, DownloadErrors;
    FullLifecycle(req, f);
    DownloadErrorMembers(req.downloads, f, |req.downloads|);
    assert e in ExecErrors(req, f) <==> (e.ExecutionFailed? || e.ExitStatus?) && CountedFailure(req, f, e);
  }

  lemma EarlyErrors(req: RunRequest, f: Faults, k: nat)
    requires !f.createFails && !f.waitFails ==> k == FirstFailure(f, |req.uploads|, 0) < |req.uploads|
    ensures Meaning(req, f).errors ==
      if f.createFails then [CreateFailed]
      else [if f.waitFails then WaitFailed else UploadFailed(k)]
           + if !req.keep && f.deleteFails then [DeleteFailed] else []
  {
    hide Work, UploadEvents, FirstFailure;
  }

  lemma FailuresBeforeUploads(req: RunRequest, f: Faults, e: RunError)
    requires f.createFails || f.waitFails
    ensures e in Meaning(req, f).errors <==> CountedFailure(req, f, e)
  {
    hide Meaning, Counts;
    EarlyErrors(req, f, 0);
  }

  lemma FailuresInUploads(req: RunRequest, f: Faults, e: RunError)
    requires !f.createFails && !f.waitFails && !UploadsSucceed(req, f)
    ensures e in Meaning(req, f).errors <==> CountedFailure(req, f, e)
  {
    var k := FirstFailure(f, |req.uploads|, 0);
    assert k < |req.uploads|;
    hide Meaning, FirstFailure, Counts, UploadsSucceed;
    EarlyErrors(req, f, k);
    if e.UploadFailed? {
      FirstFailureIs(f, |req.uploads|, e.i);
    }
  }

  lemma FailuresOfEarlyEnd(req: RunRequest, f: Faults, e: RunError)
    requires !UploadsSucceed(req, f)
    ensures e in Meaning(req, f).errors <==> CountedFailure(req, f, e)
  {
    hide Meaning, CountedFailure, UploadsSucceed;
    if f.createFails || f.waitFails {
      FailuresBeforeUploads(req, f, e);
    } else {
      FailuresInUploads(req, f, e);
    }
  }

  lemma FirstFailureIs(f: Faults, n: nat, i: nat)
    ensures i < n && f.uploadFails(i) && (forall j: nat :: j < i ==> !f.uploadFails(j)) <==>
      i == FirstFailure(f, n, 0) < n
  {
    hide FirstFailure;
  }

  /** The joined error holds every counted failure and nothing else; so the run
      reports success exactly when no counted step failed. */
  lemma EveryFailureIsKept(req: RunRequest, f: Faults)
    ensures forall e :: e in Meaning(req, f).errors <==> CountedFailure(req, f, e)
    ensures Meaning(req, f).errors == [] <==> forall e :: !CountedFailure(req, f, e)
  {
    hide Meaning, CountedFailure;
    var errors := Meaning(req, f).errors;
    forall e ensures e in errors <==> CountedFailure(req, f, e) {
      if UploadsSucceed(req, f) { FailuresOfFullRun(req, f, e); } else { FailuresOfEarlyEnd(req, f, e); }
    }
    if errors != [] {
      assert errors[0] in errors;
    }
  }
}
