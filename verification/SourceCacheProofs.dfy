// Safety of the source cache over every run of the system.
module SourceCacheProofs {
  import opened Strings
  import opened SourceCache

  /** What the lock holder knows about its mirror. */
  predicate MirrorOk(run: Run, m: Option<Repo>) {
    match run.pc
    case InitMirror => m.Some?
    case ListRemotes => m.Some? && m.value.git
    case SetOrigin(known) => m.Some? && m.value.git && (known <==> m.value.origin.Some?)
    case Fetch => m.Some? && m.value.git && m.value.origin == Some(run.job.url)
    case ReadFetchHead =>
      run.named.Some? && m.Some? && m.value.fetchHead == run.named && run.named.value in m.value.objects
    case ClearCheckout(o) => run.named == Some(o) && m.Some? && o in m.value.objects
    case MakeCheckout(o) => run.named == Some(o) && m.Some? && o in m.value.objects
    case InitCheckout(o) => run.named == Some(o) && m.Some? && o in m.value.objects
    case CopyObjects(o) => run.named == Some(o) && m.Some? && o in m.value.objects
    case _ => true
  }

  predicate Fetched(run: Run, c: Option<Repo>) {
    run.named.Some? && c.Some? && c.value.git && c.value.fetchHead == run.named && run.named.value in c.value.objects
  }

  /** What a run knows about its own checkout. */
  predicate CheckoutOk(run: Run, c: Option<Repo>) {
    match run.pc
    case InitCheckout(_) => c.Some?
    case CopyObjects(_) => c.Some? && c.value.git
    case Unlock(ok) => ok ==> Fetched(run, c)
    case CheckoutHead => Fetched(run, c)
    case Submodules => Fetched(run, c) && c.value.head.Some? && c.value.head == Peel(run.named.value)
    case ResolveHead => Fetched(run, c) && c.value.head.Some? && c.value.head == Peel(run.named.value)
    case Done(commit) => Fetched(run, c) && c.value.head == Some(commit) && Peel(run.named.value) == Some(commit)
    case Failed(clean) => clean ==> c.None?
    case Released(clean) => clean ==> c.None?
    case _ => true
  }

  /** Peeling is final: a peeled object is a commit and peels to itself. */
  lemma {:induction false} PeelIsFinal(o: Obj)
    ensures Peel(o).Some? ==> Peel(o).value.CommitObj? && Peel(Peel(o).value) == Peel(o)
  {
    if o.TagObj? {
      PeelIsFinal(o.target);
    }
  }

  /** A commit below a chain of annotated tags. */
  function Tagged(o: Obj, tags: seq<nat>): Obj {
    if tags == [] then o else TagObj(tags[0], Tagged(o, tags[1..]))
  }

  /** Peeling finds exactly the commit below the tags, however many there are. */
  lemma {:induction false} PeelFindsTheCommit(o: Obj, c: Obj, tags: seq<nat>)
    ensures c.CommitObj? ==> Peel(Tagged(c, tags)) == Some(c)
    ensures Peel(o).Some? ==> exists chain :: o == Tagged(Peel(o).value, chain)
    decreases |tags|, o
  {
    if tags != [] {
      PeelFindsTheCommit(o, c, tags[1..]);
    } else if o.TagObj? && Peel(o).Some? {
      PeelFindsTheCommit(o.target, c, []);
      var chain :| o.target == Tagged(Peel(o.target).value, chain);
      assert ([o.tagId] + chain)[1..] == chain;
      assert o == Tagged(Peel(o).value, [o.tagId] + chain);
    } else {
      assert Peel(o).Some? ==> o == Tagged(o, []);
    }
  }

  function MirrorAfter(m: Option<Repo>, eff: Effect): Option<Repo> {
    if eff.mirror.Some? then eff.mirror else m
  }

  function CheckoutAfter(c: Option<Repo>, change: CheckoutChange): Option<Repo> {
    match change
    case NoChange => c
    case RemoveCheckout => None
    case MakeDirs => if c.Some? then c else Some(PLAIN_DIR)
    case Put(repo) => Some(repo)
    case RemoveRun => None
  }

  /** Only the holder acts on the mirror; the lock is taken and returned at the section's ends. */
  lemma ActDiscipline(run: Run, m: Option<Repo>, c: Option<Repo>, free: bool, remote: map<(string, string), Obj>,
                      ch: Choice)
    ensures var eff := Act(run, m, c, free, remote, ch);
      && eff.run.job == run.job
      && (eff.mirror.Some? ==> Critical(run.pc))
      && (eff.lock == Acquire ==> free && !Critical(run.pc) && Critical(eff.run.pc))
      && (eff.lock == Release ==> Critical(run.pc) && !Critical(eff.run.pc))
      && (eff.lock == KeepLock ==> (Critical(run.pc) <==> Critical(eff.run.pc)))
  {
  }

  lemma ActKeepsMirrorOk(run: Run, m: Option<Repo>, c: Option<Repo>, free: bool, remote: map<(string, string), Obj>,
                         ch: Choice)
    requires MirrorOk(run, m)
    ensures var eff := Act(run, m, c, free, remote, ch); MirrorOk(eff.run, MirrorAfter(m, eff))
  {
  }

  lemma ActKeepsCheckoutOk(run: Run, m: Option<Repo>, c: Option<Repo>, free: bool, remote: map<(string, string), Obj>,
                           ch: Choice)
    requires MirrorOk(run, m) && CheckoutOk(run, c)
    ensures var eff := Act(run, m, c, free, remote, ch); CheckoutOk(eff.run, CheckoutAfter(c, eff.checkout))
  {
    if run.named.Some? {
      PeelIsFinal(run.named.value);
    }
  }

  /** Paths of different owners never meet. */
  lemma PathsApart(r: RunId, job: Job, other: RunId, otherJob: Job)
    ensures !(RunDir(r) <= MirrorPath(otherJob))
    ensures RunDir(r) <= CheckoutPath(other, otherJob) <==> r == other
    ensures !(CheckoutPath(r, job) <= MirrorPath(otherJob))
    ensures CheckoutPath(r, job) <= CheckoutPath(other, otherJob) ==> r == other
    ensures RunDir(r) <= CheckoutPath(r, job)
    ensures MirrorPath(job) == MirrorPath(otherJob) <==> job.key == otherJob.key
  {
    assert RunDir(r)[0] == "checkouts" && RunDir(r)[1] == r;
    assert CheckoutPath(r, job)[0] == "checkouts" && CheckoutPath(r, job)[1] == r;
    assert CheckoutPath(other, otherJob)[1] == other && CheckoutPath(other, otherJob)[..2] == RunDir(other);
    assert MirrorPath(otherJob)[0] == "mirrors" && "mirrors" != "checkouts" by {
      assert "mirrors"[0] == 'm' && "checkouts"[0] == 'c';
    }
    assert (job.key + ".git")[..|job.key|] == job.key && (otherJob.key + ".git")[..|otherJob.key|] == otherJob.key;
    assert MirrorPath(job)[1] == job.key + ".git" && MirrorPath(otherJob)[1] == otherJob.key + ".git";
  }

  lemma ApplyViews(w: World, r: RunId, job: Job, eff: Effect)
    ensures At(Apply(w, r, job, eff).disk, MirrorPath(job)) == MirrorAfter(At(w.disk, MirrorPath(job)), eff)
    ensures At(Apply(w, r, job, eff).disk, CheckoutPath(r, job)) ==
      CheckoutAfter(At(w.disk, CheckoutPath(r, job)), eff.checkout)
  {
    PathsApart(r, job, r, job);
    assert RunDir(r) != CheckoutPath(r, job);
  }

  /** A step changes nothing outside its own run directory and its own mirror, and the
      mirror only when the step says so. */
  lemma ApplyElsewhere(w: World, r: RunId, job: Job, eff: Effect, p: Path)
    requires !(RunDir(r) <= p) && (p != MirrorPath(job) || eff.mirror.None?)
    ensures At(Apply(w, r, job, eff).disk, p) == At(w.disk, p)
  {
    PathsApart(r, job, r, job);
    assert CheckoutPath(r, job)[..2] == RunDir(r);
    PrefixTransitive(RunDir(r), CheckoutPath(r, job), p);
  }

  lemma PrefixTransitive(a: Path, b: Path, p: Path)
    ensures a <= b && b <= p ==> a <= p
  {
    if a <= b && b <= p {
      assert a == b[..|a|] == p[..|b|][..|a|] == p[..|a|];
    }
  }

  predicate LocksOk(w: World) {
    && (forall r :: r in w.runs && Critical(w.runs[r].pc) ==>
        w.runs[r].job.key in w.locks && w.locks[w.runs[r].job.key] == r)
    && (forall k :: k in w.locks ==>
          w.locks[k] in w.runs && Critical(w.runs[w.locks[k]].pc) && w.runs[w.locks[k]].job.key == k)
  }

  predicate RunOk(w: World, r: RunId)
    requires r in w.runs
  {
    && MirrorOk(w.runs[r], At(w.disk, MirrorPath(w.runs[r].job)))
    && CheckoutOk(w.runs[r], At(w.disk, CheckoutPath(r, w.runs[r].job)))
  }

  predicate Inv(w: World) {
    LocksOk(w) && forall r :: r in w.runs ==> RunOk(w, r)
  }

  lemma IdleMirrorOk(run: Run, m: Option<Repo>)
    requires !Critical(run.pc)
    ensures MirrorOk(run, m)
  {
  }

  lemma AdvanceKeepsLocks(w: World, r: RunId, ch: Choice)
    requires LocksOk(w) && r in w.runs
    ensures LocksOk(Step(w, r, Advance(ch)))
  {
    var run := w.runs[r];
    ActDiscipline(run, At(w.disk, MirrorPath(run.job)), At(w.disk, CheckoutPath(r, run.job)), run.job.key !in w.locks,
                  w.remote, ch);
  }

  lemma AdvanceKeepsRun(w: World, r: RunId, ch: Choice, other: RunId)
    requires Inv(w) && r in w.runs && other in w.runs
    ensures RunOk(Step(w, r, Advance(ch)), other)
  {
    var run := w.runs[r];
    var m, c := At(w.disk, MirrorPath(run.job)), At(w.disk, CheckoutPath(r, run.job));
    var eff := Act(run, m, c, run.job.key !in w.locks, w.remote, ch);
    assert RunOk(w, r) && RunOk(w, other);
    ActDiscipline(run, m, c, run.job.key !in w.locks, w.remote, ch);
    if other == r {
      ActKeepsMirrorOk(run, m, c, run.job.key !in w.locks, w.remote, ch);
      ActKeepsCheckoutOk(run, m, c, run.job.key !in w.locks, w.remote, ch);
      ApplyViews(w, r, run.job, eff);
    } else {
      var job := w.runs[other].job;
      PathsApart(r, run.job, other, job);
      ApplyElsewhere(w, r, run.job, eff, CheckoutPath(other, job));
      if Critical(w.runs[other].pc) {
        ApplyElsewhere(w, r, run.job, eff, MirrorPath(job));
      } else {
        IdleMirrorOk(w.runs[other], At(Step(w, r, Advance(ch)).disk, MirrorPath(job)));
      }
    }
  }

  lemma QuietStepKeepsLocks(w: World, r: RunId, e: Event)
    requires LocksOk(w) && (e.Spawn? || e.Crash?)
    ensures LocksOk(Step(w, r, e))
  {
  }

  lemma QuietStepKeepsRun(w: World, r: RunId, e: Event, other: RunId)
    requires (e.Spawn? || e.Crash?) && other in Step(w, r, e).runs
    requires other in w.runs ==> RunOk(w, other)
    ensures RunOk(Step(w, r, e), other)
  {
    assert Step(w, r, e).disk == w.disk;
    if other !in w.runs || Step(w, r, e).runs[other] != w.runs[other] {
      assert Step(w, r, e).runs[other].pc in {Start, Crashed};
    }
  }

  lemma QuietStepKeepsInv(w: World, r: RunId, e: Event)
    requires Inv(w) && (e.Spawn? || e.Crash?)
    ensures Inv(Step(w, r, e))
  {
    QuietStepKeepsLocks(w, r, e);
    forall other | other in Step(w, r, e).runs ensures RunOk(Step(w, r, e), other) {
      QuietStepKeepsRun(w, r, e, other);
    }
  }

  lemma StepKeepsInv(w: World, r: RunId, e: Event)
    requires Inv(w)
    ensures Inv(Step(w, r, e))
  {
    match e
    case Advance(ch) =>
      if r in w.runs {
        AdvanceKeepsLocks(w, r, ch);
        forall other | other in Step(w, r, e).runs ensures RunOk(Step(w, r, e), other) {
          AdvanceKeepsRun(w, r, ch, other);
        }
      }
    case Spawn(job) => QuietStepKeepsInv(w, r, e);
    case Crash => QuietStepKeepsInv(w, r, e);
    case RemoteMoves(remote) =>
      forall other | other in w.runs ensures RunOk(Step(w, r, e), other) {
        assert RunOk(w, other);
      }
  }

  lemma {:induction false} ExecKeepsInv(w: World, events: seq<(RunId, Event)>)
    requires Initial(w)
    ensures Inv(Exec(w, events))
    decreases events
  {
    if events != [] {
      var last := events[|events| - 1];
      ExecKeepsInv(w, events[..|events| - 1]);
      StepKeepsInv(Exec(w, events[..|events| - 1]), last.0, last.1);
    }
  }

  /** At most one run is inside the locked section of a mirror, on every interleaving. */
  lemma MutualExclusion(w: World, events: seq<(RunId, Event)>, a: RunId, b: RunId)
    requires Initial(w)
    ensures var now := Exec(w, events);
      (a in now.runs && b in now.runs && now.runs[a].job.key == now.runs[b].job.key
       && Critical(now.runs[a].pc) && Critical(now.runs[b].pc)) ==> a == b
  {
    ExecKeepsInv(w, events);
  }

  /** A mirror changes only in a step of the run that holds its lock. */
  lemma OnlyHolderChangesMirror(w: World, events: seq<(RunId, Event)>, r: RunId, e: Event, job: Job)
    requires Initial(w)
    ensures var now := Exec(w, events);
      At(Step(now, r, e).disk, MirrorPath(job)) != At(now.disk, MirrorPath(job))
      ==> e.Advance? && job.key in now.locks && now.locks[job.key] == r
  {
    var now := Exec(w, events);
    ExecKeepsInv(w, events);
    if e.Advance? && r in now.runs {
      var run := now.runs[r];
      var m, c := At(now.disk, MirrorPath(run.job)), At(now.disk, CheckoutPath(r, run.job));
      var eff := Act(run, m, c, run.job.key !in now.locks, now.remote, e.ch);
      ActDiscipline(run, m, c, run.job.key !in now.locks, now.remote, e.ch);
      PathsApart(r, run.job, r, job);
      if run.job.key != job.key || eff.mirror.None? {
        ApplyElsewhere(now, r, run.job, eff, MirrorPath(job));
      }
    }
  }

  /** A mirror as it is after a step that was no fetch: nothing it held is gone. */
  predicate KeptMirror(before: Option<Repo>, after: Option<Repo>) {
    before.Some? ==>
      && after.Some? && (before.value.git ==> after.value.git)
      && before.value.objects <= after.value.objects && before.value.fetchHead == after.value.fetchHead
      && (before.value.origin.Some? ==> after.value.origin.Some?)
  }

  lemma ActKeepsMirror(run: Run, m: Option<Repo>, c: Option<Repo>, free: bool, remote: map<(string, string), Obj>,
                       ch: Choice)
    ensures var after := MirrorAfter(m, Act(run, m, c, free, remote, ch));
      && (run.pc != Fetch ==> KeptMirror(m, after))
      && (m.Some? ==>
            after.Some? && (m.value.git ==> after.value.git) && m.value.objects * ch.kept <= after.value.objects)
  {
    hide Peel;
  }

  /** Mirrors are never thrown away: no event takes a repository from a mirror, and only a
      fetch, with the garbage collection it starts, takes objects. */
  lemma MirrorsAreKept(w: World, actor: RunId, e: Event, job: Job)
    ensures var before, after := At(w.disk, MirrorPath(job)), At(Step(w, actor, e).disk, MirrorPath(job));
      && (before.Some? ==> after.Some? && (before.value.git ==> after.value.git))
      && (!(e.Advance? && actor in w.runs && w.runs[actor].pc == Fetch) ==> KeptMirror(before, after))
  {
    hide Act, MirrorPath, CheckoutPath, RunDir, At;
    if e.Advance? && actor in w.runs {
      var run := w.runs[actor];
      var m, c := At(w.disk, MirrorPath(run.job)), At(w.disk, CheckoutPath(actor, run.job));
      var eff := Act(run, m, c, run.job.key !in w.locks, w.remote, e.ch);
      ActKeepsMirror(run, m, c, run.job.key !in w.locks, w.remote, e.ch);
      PathsApart(actor, run.job, actor, job);
      if MirrorPath(job) == MirrorPath(run.job) {
        ApplyViews(w, actor, run.job, eff);
      } else {
        ApplyElsewhere(w, actor, run.job, eff, MirrorPath(job));
      }
    }
  }

  /** What is copied is still there: from the fetch to the copy, the object this run's
      fetch named stays in the mirror, so the copy fails only when the command itself does. */
  lemma CopyFindsItsObject(w: World, events: seq<(RunId, Event)>, r: RunId, ch: Choice)
    requires Initial(w)
    ensures var now := Exec(w, events);
      r in now.runs && now.runs[r].pc.CopyObjects? ==>
        && now.runs[r].named == Some(now.runs[r].pc.commit)
        && MirrorPath(now.runs[r].job) in now.disk
        && now.runs[r].pc.commit in now.disk[MirrorPath(now.runs[r].job)].objects
        && (!ch.fail ==> Step(now, r, Advance(ch)).runs[r].pc == Unlock(true))
  {
    var now := Exec(w, events);
    ExecKeepsInv(w, events);
    if r in now.runs {
      assert RunOk(now, r);
    }
  }

  /** Event `i` is the fetch of run `r`, and its ref named `o` at that moment. */
  predicate FetchNamed(w: World, events: seq<(RunId, Event)>, i: nat, r: RunId, job: Job, o: Obj) {
    && i < |events| && events[i].0 == r && events[i].1.Advance?
    && var before := Exec(w, events[..i]);
    && r in before.runs && before.runs[r].pc == Fetch && before.runs[r].job == job
    && (job.url, Target(job)) in before.remote && before.remote[(job.url, Target(job))] == o
  }

  lemma NamedOnlyAtFetch(run: Run, m: Option<Repo>, c: Option<Repo>, free: bool, remote: map<(string, string), Obj>,
                         ch: Choice)
    requires MirrorOk(run, m)
    ensures var eff := Act(run, m, c, free, remote, ch);
      eff.run.named == run.named
      || (run.pc == Fetch && (run.job.url, Target(run.job)) in remote
          && eff.run.named == Some(remote[(run.job.url, Target(run.job))]))
  {
  }

  lemma {:induction false} NamedIsHistorical(w: World, events: seq<(RunId, Event)>, r: RunId)
    requires Initial(w)
    ensures var now := Exec(w, events);
      r in now.runs && now.runs[r].named.Some? ==>
        exists i: nat :: FetchNamed(w, events, i, r, now.runs[r].job, now.runs[r].named.value)
    decreases events
  {
    var now := Exec(w, events);
    if events != [] && r in now.runs && now.runs[r].named.Some? {
      var n := |events| - 1;
      var earlier := events[..n];
      var before := Exec(w, earlier);
      var e := events[n].1;
      ExecKeepsInv(w, earlier);
      NamedIsHistorical(w, earlier, r);
      var run := now.runs[r];
      if r in before.runs && before.runs[r].named == run.named && before.runs[r].job == run.job {
        var i: nat :| FetchNamed(w, earlier, i, r, run.job, run.named.value);
        assert earlier[..i] == events[..i];
        assert FetchNamed(w, events, i, r, run.job, run.named.value);
      } else {
        NewNameMeansFetch(before, events[n].0, e, r);
        assert FetchNamed(w, events, n, r, run.job, run.named.value);
      }
    }
  }

  lemma NewNameMeansFetch(before: World, actor: RunId, e: Event, r: RunId)
    requires Inv(before)
    requires r in Step(before, actor, e).runs && Step(before, actor, e).runs[r].named.Some?
    requires !(r in before.runs && before.runs[r].named == Step(before, actor, e).runs[r].named
               && before.runs[r].job == Step(before, actor, e).runs[r].job)
    ensures actor == r && e.Advance? && r in before.runs && before.runs[r].pc == Fetch
    ensures var job := Step(before, actor, e).runs[r].job;
      && before.runs[r].job == job
      && (job.url, Target(job)) in before.remote
      && Step(before, actor, e).runs[r].named == Some(before.remote[(job.url, Target(job))])
  {
    if e.Advance? && actor in before.runs {
      var run := before.runs[actor];
      assert RunOk(before, actor);
      var m, c := At(before.disk, MirrorPath(run.job)), At(before.disk, CheckoutPath(actor, run.job));
      ActDiscipline(run, m, c, run.job.key !in before.locks, before.remote, e.ch);
      NamedOnlyAtFetch(run, m, c, run.job.key !in before.locks, before.remote, e.ch);
    }
  }

  /** Provenance: the commit of a successful run is what its own ref, at its own fetch,
      peeled to, whatever other runs and the remote did in between. */
  lemma CommitProvenance(w: World, events: seq<(RunId, Event)>, r: RunId)
    requires Initial(w)
    ensures var now := Exec(w, events);
      r in now.runs && now.runs[r].pc.Done? ==>
        exists i: nat, o :: FetchNamed(w, events, i, r, now.runs[r].job, o) && Peel(o) == Some(now.runs[r].pc.commit)
  {
    var now := Exec(w, events);
    ExecKeepsInv(w, events);
    NamedIsHistorical(w, events, r);
    if r in now.runs && now.runs[r].pc.Done? {
      assert RunOk(now, r);
      var i: nat :| FetchNamed(w, events, i, r, now.runs[r].job, now.runs[r].named.value);
    }
  }

  /** Isolation: no step of another run, its clean-up included, touches a run's directory. */
  lemma RunsAreIsolated(w: World, actor: RunId, e: Event, r: RunId, p: Path)
    requires actor != r && RunDir(r) <= p
    ensures At(Step(w, actor, e).disk, p) == At(w.disk, p)
  {
    if e.Advance? && actor in w.runs {
      var run := w.runs[actor];
      var eff := Act(run, At(w.disk, MirrorPath(run.job)), At(w.disk, CheckoutPath(actor, run.job)),
                     run.job.key !in w.locks, w.remote, e.ch);
      assert p[0] == RunDir(r)[0] == "checkouts" && p[1] == RunDir(r)[1] == r;
      assert RunDir(actor)[1] == actor;
      assert MirrorPath(run.job)[0] == "mirrors" && "mirrors"[0] == 'm' && "checkouts"[0] == 'c';
      ApplyElsewhere(w, actor, run.job, eff, p);
    }
  }

  predicate Cleaned(pc: Pc) {
    pc == Failed(true) || pc == Released(true)
  }

  /** A failed or released run leaves nothing behind when its removal succeeded, now or later. */
  lemma {:induction false} CleanedRunsLeaveNothing(w: World, events: seq<(RunId, Event)>, r: RunId, p: Path)
    requires Initial(w)
    ensures var now := Exec(w, events);
      r in now.runs && Cleaned(now.runs[r].pc) && RunDir(r) <= p ==> p !in now.disk
    decreases events
  {
    if events != [] {
      var before := Exec(w, events[..|events| - 1]);
      var (actor, e) := events[|events| - 1];
      CleanedRunsLeaveNothing(w, events[..|events| - 1], r, p);
      if actor != r && RunDir(r) <= p {
        RunsAreIsolated(before, actor, e, r, p);
      }
      if actor == r && r in before.runs && RunDir(r) <= p {
        OwnCleanUp(before, r, e, p);
      }
    }
  }

  lemma CleanedMeansRemoved(run: Run, m: Option<Repo>, c: Option<Repo>, free: bool, remote: map<(string, string), Obj>,
                            ch: Choice)
    ensures var eff := Act(run, m, c, free, remote, ch);
      Cleaned(eff.run.pc) ==>
        eff.mirror.None? && (eff.checkout == RemoveRun || (eff.checkout == NoChange && Cleaned(run.pc)))
  {
  }

  lemma OwnCleanUp(w: World, r: RunId, e: Event, p: Path)
    requires r in w.runs && RunDir(r) <= p
    requires Cleaned(w.runs[r].pc) ==> p !in w.disk
    ensures Cleaned(Step(w, r, e).runs[r].pc) ==> p !in Step(w, r, e).disk
  {
    if e.Advance? {
      var run := w.runs[r];
      CleanedMeansRemoved(run, At(w.disk, MirrorPath(run.job)), At(w.disk, CheckoutPath(r, run.job)),
                          run.job.key !in w.locks, w.remote, e.ch);
    }
  }

  /** The run stands before its fetch on a bare repository whose origin is its own URL. */
  predicate ReadyToFetch(w: World, r: RunId, job: Job) {
    && r in w.runs && w.runs[r].pc == Fetch && w.runs[r].job == job
    && MirrorPath(job) in w.disk && w.disk[MirrorPath(job)].git
    && w.disk[MirrorPath(job)].origin == Some(job.url)
  }

  /** Crash recovery, safety: from whatever was left on disk, on every interleaving, a run
      that comes to its fetch finds a bare repository whose origin is its own
      credential-free URL. */
  lemma FetchFindsItsMirror(w: World, events: seq<(RunId, Event)>, r: RunId)
    requires Initial(w)
    ensures var now := Exec(w, events);
      r in now.runs && now.runs[r].pc == Fetch ==> ReadyToFetch(now, r, now.runs[r].job)
  {
    var now := Exec(w, events);
    ExecKeepsInv(w, events);
    if r in now.runs {
      assert RunOk(now, r);
    }
  }

  /** How many steps of its own a run is from its fetch, from taking the lock on. */
  function StepsToFetch(pc: Pc): Option<nat> {
    match pc
    case CheckMirror => Some(5)
    case MakeMirror => Some(4)
    case InitMirror => Some(3)
    case ListRemotes => Some(2)
    case SetOrigin(_) => Some(1)
    case Fetch => Some(0)
    case _ => None
  }

  /** The run does not crash and none of its own commands fails. */
  predicate Undisturbed(events: seq<(RunId, Event)>, r: RunId) {
    forall i :: 0 <= i < |events| && events[i].0 == r ==>
      !events[i].1.Crash? && (events[i].1.Advance? ==> !events[i].1.ch.fail)
  }

  function OwnSteps(events: seq<(RunId, Event)>, r: RunId): nat
    decreases events
  {
    if events == [] then 0
    else
      var last := events[|events| - 1];
      OwnSteps(events[..|events| - 1], r) + if last.0 == r && last.1.Advance? then 1 else 0
  }

  lemma ActNearsFetch(run: Run, m: Option<Repo>, c: Option<Repo>, free: bool, remote: map<(string, string), Obj>,
                      ch: Choice)
    requires MirrorOk(run, m) && !ch.fail && StepsToFetch(run.pc).Some? && run.pc != Fetch
    ensures var eff := Act(run, m, c, free, remote, ch);
      && eff.run.job == run.job
      && StepsToFetch(eff.run.pc).Some? && StepsToFetch(eff.run.pc).value < StepsToFetch(run.pc).value
  {
  }

  /** What an event leaves of a run's own state. */
  lemma StepOnRun(w: World, actor: RunId, e: Event, r: RunId)
    requires r in w.runs
    ensures var t := Step(w, actor, e);
      && r in t.runs
      && (actor == r && e.Advance? ==>
            t.runs[r] == Act(w.runs[r], At(w.disk, MirrorPath(w.runs[r].job)),
                             At(w.disk, CheckoutPath(r, w.runs[r].job)),
                             w.runs[r].job.key !in w.locks, w.remote, e.ch).run)
      && (actor != r || !(e.Advance? || e.Crash?) ==> t.runs[r] == w.runs[r])
  {
    hide Act, ChangeCheckout, MirrorPath, CheckoutPath, At;
  }

  /** One event, on the way to the fetch: the run's own step brings it nearer, any other
      leaves it where it is. */
  lemma NearerToFetch(w: World, actor: RunId, e: Event, r: RunId)
    requires Inv(w) && r in w.runs && StepsToFetch(w.runs[r].pc).Some? && w.runs[r].pc != Fetch
    requires actor == r ==> !e.Crash? && (e.Advance? ==> !e.ch.fail)
    ensures var t := Step(w, actor, e);
      && r in t.runs && t.runs[r].job == w.runs[r].job
      && (actor == r && e.Advance? ==>
            StepsToFetch(t.runs[r].pc).Some? && StepsToFetch(t.runs[r].pc).value < StepsToFetch(w.runs[r].pc).value)
      && (!(actor == r && e.Advance?) ==> t.runs[r] == w.runs[r])
  {
    assert RunOk(w, r);
    StepOnRun(w, actor, e, r);
    hide Inv, LocksOk, MirrorOk, CheckoutOk, Act, Step, StepsToFetch, MirrorPath, CheckoutPath, At;
    if actor == r && e.Advance? {
      var run := w.runs[r];
      ActNearsFetch(run, At(w.disk, MirrorPath(run.job)), At(w.disk, CheckoutPath(r, run.job)),
                    run.job.key !in w.locks, w.remote, e.ch);
    }
  }

  lemma ExecSplits(w: World, a: seq<(RunId, Event)>, e: (RunId, Event))
    ensures Exec(w, a + [e]) == Step(Exec(w, a), e.0, e.1)
  {
    assert (a + [e])[..|a|] == a;
  }

  lemma {:induction false} OnTheWay(w: World, events: seq<(RunId, Event)>, r: RunId, more: seq<(RunId, Event)>)
    requires Initial(w)
    requires var now := Exec(w, events); r in now.runs && now.runs[r].pc == CheckMirror
    requires Undisturbed(more, r)
    requires forall n: nat :: n <= |more| ==> !ReadyToFetch(Exec(w, events + more[..n]), r, Exec(w, events).runs[r].job)
    ensures var now := Exec(w, events + more);
      && r in now.runs && now.runs[r].job == Exec(w, events).runs[r].job
      && StepsToFetch(now.runs[r].pc).Some?
      && OwnSteps(more, r) + StepsToFetch(now.runs[r].pc).value <= 5
      && now.runs[r].pc != Fetch
    decreases more
  {
    hide Step, Undisturbed, ReadyToFetch, Exec;
    if more == [] {
      assert events + more == events;
    } else {
      var n := |more| - 1;
      var front, last := more[..n], more[n];
      assert more == front + [last] && events + more == (events + front) + [last];
      assert Undisturbed(front, r) && (last.0 == r ==> !last.1.Crash? && (last.1.Advance? ==> !last.1.ch.fail)) by {
        LastUndisturbed(more, r);
      }
      forall m: nat | m <= |front| ensures !ReadyToFetch(Exec(w, events + front[..m]), r, Exec(w, events).runs[r].job) {
        assert front[..m] == more[..m];
      }
      OnTheWay(w, events, r, front);
      ExecKeepsInv(w, events + front);
      ExecSplits(w, events + front, last);
      NearerToFetch(Exec(w, events + front), last.0, last.1, r);
      assert more[..|more|] == more;
      FetchFindsItsMirror(w, events + more, r);
    }
  }

  lemma LastUndisturbed(events: seq<(RunId, Event)>, r: RunId)
    requires Undisturbed(events, r) && events != []
    ensures Undisturbed(events[..|events| - 1], r)
    ensures var last := events[|events| - 1];
      last.0 == r ==> !last.1.Crash? && (last.1.Advance? ==> !last.1.ch.fail)
  {}

  /** Crash recovery, progress: whatever was left of the mirror and whatever others do in
      between, a run that took the lock and whose own commands work stands before its
      fetch, on the repository it needs, after at most five steps of its own. */
  lemma MirrorRecovers(w: World, events: seq<(RunId, Event)>, r: RunId, more: seq<(RunId, Event)>)
    requires Initial(w)
    requires r in Exec(w, events).runs && Exec(w, events).runs[r].pc == CheckMirror
    requires Undisturbed(more, r) && OwnSteps(more, r) >= 5
    ensures exists n: nat :: n <= |more| && ReadyToFetch(Exec(w, events + more[..n]), r, Exec(w, events).runs[r].job)
  {
    hide ReadyToFetch, Exec, Undisturbed, OwnSteps;
    var job := Exec(w, events).runs[r].job;
    if forall n: nat :: n <= |more| ==> !ReadyToFetch(Exec(w, events + more[..n]), r, job) {
      OnTheWay(w, events, r, more);
      assert false;
    }
  }

  // ------------------------------------------------------------- the lock

  /** How many steps of its own a run is at most from giving the lock back. */
  function StepsToUnlock(pc: Pc): nat {
    match pc
    case CheckMirror => 12
    case MakeMirror => 11
    case InitMirror => 10
    case ListRemotes => 9
    case SetOrigin(_) => 8
    case Fetch => 7
    case ReadFetchHead => 6
    case ClearCheckout(_) => 5
    case MakeCheckout(_) => 4
    case InitCheckout(_) => 3
    case CopyObjects(_) => 2
    case Unlock(_) => 1
    case _ => 0
  }

  lemma ActNearsUnlock(run: Run, m: Option<Repo>, c: Option<Repo>, free: bool, remote: map<(string, string), Obj>,
                       ch: Choice)
    requires Critical(run.pc)
    ensures var eff := Act(run, m, c, free, remote, ch);
      && StepsToUnlock(eff.run.pc) < StepsToUnlock(run.pc)
      && (StepsToUnlock(eff.run.pc) == 0 ==> !Critical(eff.run.pc) && eff.lock == Release)
  {
  }

  /** A locked section always ends: every step of its holder, failing or not, brings it
      nearer to giving the lock back, and the last one does. */
  lemma SectionsEnd(w: World, r: RunId, ch: Choice)
    requires r in w.runs && Critical(w.runs[r].pc)
    ensures var t := Step(w, r, Advance(ch));
      && StepsToUnlock(t.runs[r].pc) < StepsToUnlock(w.runs[r].pc)
      && (StepsToUnlock(t.runs[r].pc) == 0 ==> !Critical(t.runs[r].pc) && w.runs[r].job.key !in t.locks)
  {
    hide ChangeCheckout, Act, MirrorPath, CheckoutPath, At, StepsToUnlock, Critical;
    var run := w.runs[r];
    ActNearsUnlock(run, At(w.disk, MirrorPath(run.job)), At(w.disk, CheckoutPath(r, run.job)),
                   run.job.key !in w.locks, w.remote, ch);
  }

  /** A run that waits for a lock takes it at its next step exactly when no run is inside
      the section. */
  lemma WaiterTakesFreeLock(w: World, events: seq<(RunId, Event)>, r: RunId, ch: Choice)
    requires Initial(w) && !ch.fail
    ensures var now := Exec(w, events);
      r in now.runs && now.runs[r].pc == WaitLock ==>
        (Step(now, r, Advance(ch)).runs[r].pc == CheckMirror <==>
           forall other :: other in now.runs && now.runs[other].job.key == now.runs[r].job.key ==>
             !Critical(now.runs[other].pc))
  {
    ExecKeepsInv(w, events);
    var now := Exec(w, events);
    assert LocksOk(now);
    hide Inv, ChangeCheckout, Exec;
    if r in now.runs && now.runs[r].pc == WaitLock && now.runs[r].job.key in now.locks {
      var holder := now.locks[now.runs[r].job.key];
      assert holder in now.runs && Critical(now.runs[holder].pc) && now.runs[holder].job.key == now.runs[r].job.key;
    }
  }

  /** A crash of the holder hands the lock on: a run that waited for it in vain takes it
      at its next step. */
  lemma CrashFreesLock(w: World, events: seq<(RunId, Event)>, holder: RunId, r: RunId, ch: Choice)
    requires Initial(w) && !ch.fail
    ensures var now := Exec(w, events);
      holder in now.runs && Critical(now.runs[holder].pc)
      && r in now.runs && now.runs[r].pc == WaitLock && now.runs[r].job.key == now.runs[holder].job.key ==>
        && Step(now, r, Advance(ch)).runs[r].pc == WaitLock
        && var after := Step(Step(now, holder, Crash), r, Advance(ch));
           after.runs[r].pc == CheckMirror && after.locks[after.runs[r].job.key] == r
  {
    var now := Exec(w, events);
    ExecKeepsInv(w, events);
    assert LocksOk(now);
    hide ChangeCheckout, Exec, Act, Inv;
    if holder in now.runs && Critical(now.runs[holder].pc) && r in now.runs && now.runs[r].pc == WaitLock
       && now.runs[r].job.key == now.runs[holder].job.key {
      CrashHandsOn(now, holder, r);
      WaitingStep(now, r, ch);
      WaitingStep(Step(now, holder, Crash), r, ch);
    }
  }

  lemma CrashHandsOn(w: World, holder: RunId, r: RunId)
    requires LocksOk(w) && holder in w.runs && Critical(w.runs[holder].pc)
    requires r in w.runs && w.runs[r].pc == WaitLock && w.runs[r].job.key == w.runs[holder].job.key
    ensures w.runs[r].job.key in w.locks
    ensures var t := Step(w, holder, Crash);
      r in t.runs && t.runs[r] == w.runs[r] && w.runs[r].job.key !in t.locks
  {
  }

  lemma WaitingStep(w: World, r: RunId, ch: Choice)
    requires r in w.runs && w.runs[r].pc == WaitLock && !ch.fail
    ensures var t := Step(w, r, Advance(ch));
      && t.runs[r].job == w.runs[r].job
      && if w.runs[r].job.key in w.locks then t.runs[r].pc == WaitLock
         else t.runs[r].pc == CheckMirror && t.locks[w.runs[r].job.key] == r
  {
    hide ChangeCheckout;
  }
}
