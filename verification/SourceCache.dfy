// The source cache: any number of runs share one bare mirror per repository
// through an advisory lock and build private checkouts beside it. Each git command
// and each file-system call is one atomic step; steps of different runs interleave,
// any step may fail, any run may crash, and the remote may change at any time.
module SourceCache {
  import opened Strings

  type RunId = string
  type Path = seq<string>

  /** What a ref can name. */
  datatype Obj = CommitObj(id: nat) | TagObj(tagId: nat, target: Obj) | OtherObj(otherId: nat)

  /** The commit an object peels to, as "^{commit}" does. */
  function Peel(o: Obj): Option<Obj> {
    match o
    case CommitObj(_) => Some(o)
    case TagObj(_, target) => Peel(target)
    case OtherObj(_) => None
  }

  /** A directory of the cache; `git` says whether it holds a repository. */
  datatype Repo = Repo(git: bool, origin: Option<string>, fetchHead: Option<Obj>, objects: set<Obj>, head: Option<Obj>)

  const PLAIN_DIR := Repo(false, None, None, {}, None)

  /** One Prepare call: `key` is the hash of the canonical URL, `url` the URL without
      credentials, `name` the directory name derived from it. */
  datatype Job = Job(key: string, url: string, ref: string, name: string)

  function Target(job: Job): string {
    if job.ref == "" then "HEAD" else job.ref
  }

  predicate ValidRepoName(name: string) {
    name != "" && name != "." && name != ".."
  }

  datatype Pc =
    | Start | OpenLock | WaitLock
    | CheckMirror | MakeMirror | InitMirror | ListRemotes | SetOrigin(known: bool)
    | Fetch | ReadFetchHead
    | ClearCheckout(commit: Obj) | MakeCheckout(commit: Obj) | InitCheckout(commit: Obj) | CopyObjects(commit: Obj)
    | Unlock(ok: bool)
    | CheckoutHead | Submodules | ResolveHead
    | RemoveRunDir
    | Done(commit: Obj) | Rejected | Failed(clean: bool) | Released(clean: bool) | Crashed

  /** `named` records what the job's ref named at this run's own fetch. */
  datatype Run = Run(job: Job, pc: Pc, named: Option<Obj>)

  datatype World = World(
    disk: map<Path, Repo>, locks: map<string, RunId>, runs: map<RunId, Run>, remote: map<(string, string), Obj>)

  function MirrorPath(job: Job): Path {
    ["mirrors", job.key + ".git"]
  }

  function RunDir(r: RunId): Path {
    ["checkouts", r]
  }

  function CheckoutPath(r: RunId, job: Job): Path {
    RunDir(r) + [job.name]
  }

  /** From taking the lock to giving it back. */
  predicate Critical(pc: Pc) {
    pc.CheckMirror? || pc.MakeMirror? || pc.InitMirror? || pc.ListRemotes? || pc.SetOrigin? || pc.Fetch?
    || pc.ReadFetchHead? || pc.ClearCheckout? || pc.MakeCheckout? || pc.InitCheckout? || pc.CopyObjects? || pc.Unlock?
  }

  /** The outside world's part in a step: whether it fails, and which objects of the
      mirror a fetch (with its garbage collection) leaves in place. */
  datatype Choice = Choice(fail: bool, kept: set<Obj>)

  datatype CheckoutChange = NoChange | RemoveCheckout | MakeDirs | Put(repo: Repo) | RemoveRun
  datatype LockChange = KeepLock | Acquire | Release

  /** What one step does: the run's next state, and its effect on mirror, checkout and lock. */
  datatype Effect = Effect(run: Run, mirror: Option<Repo>, checkout: CheckoutChange, lock: LockChange)

  function Goto(run: Run, pc: Pc): Effect {
    Effect(run.(pc := pc), None, NoChange, KeepLock)
  }

  /** A failed step: give the lock back first when it is held, then clean up. */
  function GiveUp(run: Run): Effect {
    Goto(run, if Critical(run.pc) then Unlock(false) else RemoveRunDir)
  }

  /** The locked part: ensureMirror, ensureOrigin and fetchRef. */
  function ActOnMirror(run: Run, mirror: Option<Repo>, remote: map<(string, string), Obj>, ch: Choice): Effect {
    match run.pc
    case CheckMirror => Goto(run, if mirror.Some? && mirror.value.git then ListRemotes else MakeMirror)
    case MakeMirror => Goto(run, InitMirror).(mirror := if mirror.Some? then mirror else Some(PLAIN_DIR))
    case InitMirror =>
      if mirror.None? then GiveUp(run) else Goto(run, ListRemotes).(mirror := Some(mirror.value.(git := true)))
    case ListRemotes => if mirror.None? then GiveUp(run) else Goto(run, SetOrigin(mirror.value.origin.Some?))
    case SetOrigin(known) =>
      if mirror.None? || known != mirror.value.origin.Some? then GiveUp(run)
      else Goto(run, Fetch).(mirror := Some(mirror.value.(origin := Some(run.job.url))))
    case Fetch =>
      if mirror.None? || mirror.value.origin.None?
        || (mirror.value.origin.value, Target(run.job)) !in remote then GiveUp(run)
      else
        var found := remote[(mirror.value.origin.value, Target(run.job))];
        var fetched := mirror.value.(fetchHead := Some(found), objects := mirror.value.objects * ch.kept + {found});
        Effect(run.(pc := ReadFetchHead, named := Some(found)), Some(fetched), NoChange, KeepLock)
    case ReadFetchHead =>
      if mirror.None? || mirror.value.fetchHead.None? then GiveUp(run)
      else Goto(run, ClearCheckout(mirror.value.fetchHead.value))
    case _ => GiveUp(run)
  }

  /** The checkout's part, inside and outside the lock. */
  function ActOnCheckout(run: Run, mirror: Option<Repo>, checkout: Option<Repo>): Effect {
    match run.pc
    case ClearCheckout(o) => Goto(run, MakeCheckout(o)).(checkout := RemoveCheckout)
    case MakeCheckout(o) => Goto(run, InitCheckout(o)).(checkout := MakeDirs)
    case InitCheckout(o) =>
      if checkout.None? then GiveUp(run) else Goto(run, CopyObjects(o)).(checkout := Put(checkout.value.(git := true)))
    case CopyObjects(o) =>
      if checkout.None? || mirror.None? || o !in mirror.value.objects then GiveUp(run)
      else
        var copied := checkout.value.(fetchHead := Some(o), objects := checkout.value.objects + {o});
        Goto(run, Unlock(true)).(checkout := Put(copied))
    case CheckoutHead =>
      if checkout.None? || checkout.value.fetchHead.None? || Peel(checkout.value.fetchHead.value).None? then GiveUp(run)
      else Goto(run, Submodules).(checkout := Put(checkout.value.(head := Peel(checkout.value.fetchHead.value))))
    case Submodules => Goto(run, ResolveHead)
    case ResolveHead =>
      if checkout.None? || checkout.value.head.None? || Peel(checkout.value.head.value).None? then GiveUp(run)
      else Goto(run, Done(Peel(checkout.value.head.value).value))
    case _ => GiveUp(run)
  }

  /** One step of Prepare. A fetch that fails may still have emptied FETCH_HEAD. */
  function Act(run: Run, mirror: Option<Repo>, checkout: Option<Repo>, free: bool,
               remote: map<(string, string), Obj>, ch: Choice): Effect
  {
    match run.pc
    case Start => Goto(run, if ValidRepoName(run.job.name) then OpenLock else Rejected)
    case OpenLock => if ch.fail then GiveUp(run) else Goto(run, WaitLock)
    case WaitLock =>
      if ch.fail then GiveUp(run)
      else if free then Goto(run, CheckMirror).(lock := Acquire)
      else Goto(run, WaitLock)
    case Unlock(ok) => Goto(run, if ok then CheckoutHead else RemoveRunDir).(lock := Release)
    case RemoveRunDir =>
      if ch.fail then Goto(run, Failed(false)) else Goto(run, Failed(true)).(checkout := RemoveRun)
    case Done(_) =>  // the caller's Cleanup
      if ch.fail then Goto(run, Released(false)) else Goto(run, Released(true)).(checkout := RemoveRun)
    case Rejected | Failed(_) | Released(_) | Crashed => Goto(run, run.pc)
    case ClearCheckout(_) | MakeCheckout(_) | InitCheckout(_) | CopyObjects(_)
       | CheckoutHead | Submodules | ResolveHead =>
      if ch.fail then GiveUp(run) else ActOnCheckout(run, mirror, checkout)
    case Fetch =>
      if ch.fail then
        GiveUp(run).(mirror :=
          if mirror.None? then None
          else Some(mirror.value.(fetchHead := None, objects := mirror.value.objects * ch.kept)))
      else ActOnMirror(run, mirror, remote, ch)
    case CheckMirror | MakeMirror | InitMirror | ListRemotes | SetOrigin(_) | ReadFetchHead =>
      if ch.fail then GiveUp(run) else ActOnMirror(run, mirror, remote, ch)
  }

  function At(disk: map<Path, Repo>, p: Path): Option<Repo> {
    if p in disk then Some(disk[p]) else None
  }

  function ChangeCheckout(disk: map<Path, Repo>, r: RunId, job: Job, change: CheckoutChange): map<Path, Repo> {
    match change
    case NoChange => disk
    case RemoveCheckout => map p | p in disk && !(CheckoutPath(r, job) <= p) :: disk[p]
    case MakeDirs =>
      var parent := if RunDir(r) in disk then disk else disk[RunDir(r) := PLAIN_DIR];
      if CheckoutPath(r, job) in disk then parent else parent[CheckoutPath(r, job) := PLAIN_DIR]
    case Put(repo) => disk[CheckoutPath(r, job) := repo]
    case RemoveRun => map p | p in disk && !(RunDir(r) <= p) :: disk[p]
  }

  function Apply(w: World, r: RunId, job: Job, eff: Effect): World {
    var disk := ChangeCheckout(w.disk, r, job, eff.checkout);
    World(if eff.mirror.Some? then disk[MirrorPath(job) := eff.mirror.value] else disk,
          match eff.lock
          case KeepLock => w.locks
          case Acquire => w.locks[job.key := r]
          case Release => w.locks - {job.key},
          w.runs[r := eff.run],
          w.remote)
  }

  datatype Event =
    | Spawn(job: Job)
    | Advance(ch: Choice)
    | Crash
    | RemoteMoves(remote: map<(string, string), Obj>)

  /** One step of the whole system. Run ids are never reused; a crash releases the lock. */
  function Step(w: World, r: RunId, e: Event): World {
    match e
    case Spawn(job) => if r in w.runs then w else w.(runs := w.runs[r := Run(job, Start, None)])
    case Advance(ch) =>
      if r !in w.runs then w
      else
        var run := w.runs[r];
        Apply(w, r, run.job, Act(run, At(w.disk, MirrorPath(run.job)), At(w.disk, CheckoutPath(r, run.job)),
                                 run.job.key !in w.locks, w.remote, ch))
    case Crash =>
      if r !in w.runs || w.runs[r].pc.Done? then w
      else
        var run := w.runs[r];
        w.(runs := w.runs[r := run.(pc := Crashed)],
           locks := if Critical(run.pc) then w.locks - {run.job.key} else w.locks)
    case RemoteMoves(remote) => w.(remote := remote)
  }

  function Exec(w: World, events: seq<(RunId, Event)>): World
    decreases events
  {
    if events == [] then w else Step(Exec(w, events[..|events| - 1]), events[|events| - 1].0, events[|events| - 1].1)
  }

  /** Before the first run: any leftovers on disk, nobody running. */
  predicate Initial(w: World) {
    w.locks == map[] && w.runs == map[]
  }
}
