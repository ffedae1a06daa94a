// Progress of the source cache: which runs get past the name check, and how every run
// ends, whatever other runs, crashes and the remote do in between.
module SourceCacheProgress {
  import opened Strings
  import opened SourceCache
  import opened SourceCacheProofs

  // ------------------------------------------------------- the name check

  /** A rejected run had an unusable name; a run that was let through has a usable one. */
  predicate NameChecked(run: Run) {
    && (run.pc == Rejected ==> !ValidRepoName(run.job.name))
    && (run.pc != Start && run.pc != Rejected && run.pc != Crashed ==> ValidRepoName(run.job.name))
  }

  lemma ActChecksName(run: Run, m: Option<Repo>, c: Option<Repo>, free: bool, remote: map<(string, string), Obj>,
                      ch: Choice)
    requires NameChecked(run)
    ensures NameChecked(Act(run, m, c, free, remote, ch).run)
  {
    hide Peel;
  }

  lemma StepChecksNames(w: World, actor: RunId, e: Event, r: RunId)
    requires r in w.runs ==> NameChecked(w.runs[r])
    ensures r in Step(w, actor, e).runs ==> NameChecked(Step(w, actor, e).runs[r])
  {
    hide Act, ChangeCheckout, MirrorPath, CheckoutPath, At, ValidRepoName;
    if e.Advance? && actor == r && r in w.runs {
      var run := w.runs[r];
      ActChecksName(run, At(w.disk, MirrorPath(run.job)), At(w.disk, CheckoutPath(r, run.job)),
                    run.job.key !in w.locks, w.remote, e.ch);
    }
  }

  /** On every interleaving: who was rejected had an unusable name, and nobody with such a
      name comes to the lock, to a checkout or to an end of another kind. */
  lemma {:induction false} NamesAreChecked(w: World, events: seq<(RunId, Event)>, r: RunId)
    requires Initial(w)
    ensures var now := Exec(w, events); r in now.runs ==> NameChecked(now.runs[r])
    decreases events
  {
    hide NameChecked, Step;
    if events != [] {
      var last := events[|events| - 1];
      NamesAreChecked(w, events[..|events| - 1], r);
      StepChecksNames(Exec(w, events[..|events| - 1]), last.0, last.1, r);
    }
  }

  // ------------------------------------------------- runs that nothing disturbs

  /** How many steps of its own a run is from a finished checkout; None when it has given up. */
  function StepsToDone(pc: Pc): Option<nat> {
    match pc
    case Start => Some(18)
    case OpenLock => Some(17)
    case WaitLock => Some(16)
    case CheckMirror => Some(15)
    case MakeMirror => Some(14)
    case InitMirror => Some(13)
    case ListRemotes => Some(12)
    case SetOrigin(_) => Some(11)
    case Fetch => Some(10)
    case ReadFetchHead => Some(9)
    case ClearCheckout(_) => Some(8)
    case MakeCheckout(_) => Some(7)
    case InitCheckout(_) => Some(6)
    case CopyObjects(_) => Some(5)
    case Unlock(ok) => if ok then Some(4) else None
    case CheckoutHead => Some(3)
    case Submodules => Some(2)
    case ResolveHead => Some(1)
    case Done(_) => Some(0)
    case _ => None
  }

  /** The run has not given up, and what its fetch found, if it has fetched, is in `names`. */
  predicate OnCourse(run: Run, names: set<Obj>) {
    && StepsToDone(run.pc).Some?
    && (StepsToDone(run.pc).value < 10 ==> run.named.Some? && run.named.value in names)
  }

  predicate AllPeel(names: set<Obj>) {
    forall o :: o in names ==> Peel(o).Some?
  }

  /** The job's ref exists at the remote and names one of `names`. */
  predicate RefNames(remote: map<(string, string), Obj>, job: Job, names: set<Obj>) {
    var ref := (job.url, if job.ref != "" then job.ref else "HEAD");
    ref in remote && remote[ref] in names
  }

  lemma ActNearsFetched(run: Run, m: Option<Repo>, c: Option<Repo>, free: bool, remote: map<(string, string), Obj>,
                        ch: Choice, names: set<Obj>)
    requires MirrorOk(run, m) && OnCourse(run, names) && StepsToDone(run.pc).value >= 10
    requires ValidRepoName(run.job.name) && !ch.fail && AllPeel(names) && RefNames(remote, run.job, names)
    ensures var eff := Act(run, m, c, free, remote, ch);
      && eff.run.job == run.job && OnCourse(eff.run, names)
      && if run.pc == WaitLock && !free then eff.run == run
         else StepsToDone(eff.run.pc).value < StepsToDone(run.pc).value
  {
    hide ValidRepoName, Peel, ActOnCheckout, CheckoutOk;
  }

  lemma ActNearsCheckout(run: Run, m: Option<Repo>, c: Option<Repo>, free: bool, remote: map<(string, string), Obj>,
                         ch: Choice, names: set<Obj>)
    requires MirrorOk(run, m) && CheckoutOk(run, c) && OnCourse(run, names) && 0 < StepsToDone(run.pc).value < 10
    requires !ch.fail && AllPeel(names)
    ensures var eff := Act(run, m, c, free, remote, ch);
      && eff.run.job == run.job && OnCourse(eff.run, names)
      && StepsToDone(eff.run.pc).value < StepsToDone(run.pc).value
  {
    hide ValidRepoName;
    PeelIsFinal(run.named.value);
  }

  /** One step of the run's own: nearer to the end, unless it waits for a lock that is taken. */
  lemma ActNearsDone(run: Run, m: Option<Repo>, c: Option<Repo>, free: bool, remote: map<(string, string), Obj>,
                     ch: Choice, names: set<Obj>)
    requires MirrorOk(run, m) && CheckoutOk(run, c) && OnCourse(run, names) && !run.pc.Done?
    requires ValidRepoName(run.job.name) && !ch.fail && AllPeel(names) && RefNames(remote, run.job, names)
    ensures var eff := Act(run, m, c, free, remote, ch);
      && eff.run.job == run.job && OnCourse(eff.run, names)
      && if run.pc == WaitLock && !free then eff.run == run
         else StepsToDone(eff.run.pc).value < StepsToDone(run.pc).value
  {
    hide ValidRepoName, Act, MirrorOk, CheckoutOk, AllPeel, RefNames;
    if StepsToDone(run.pc).value >= 10 {
      ActNearsFetched(run, m, c, free, remote, ch, names);
    } else {
      ActNearsCheckout(run, m, c, free, remote, ch, names);
    }
  }

  /** The run stands before a lock that another one holds. */
  predicate Blocked(w: World, r: RunId) {
    r in w.runs && w.runs[r].pc == WaitLock && w.runs[r].job.key in w.locks
  }

  /** The run's own steps in `more`, those spent in front of a taken lock left out. */
  function OwnTurns(w: World, events: seq<(RunId, Event)>, more: seq<(RunId, Event)>, r: RunId): nat
    decreases more
  {
    if more == [] then 0
    else
      var n := |more| - 1;
      OwnTurns(w, events, more[..n], r)
      + if more[n].0 == r && more[n].1.Advance? && !Blocked(Exec(w, events + more[..n]), r) then 1 else 0
  }

  lemma StepNearsDone(w: World, actor: RunId, e: Event, r: RunId, names: set<Obj>)
    requires Inv(w) && r in w.runs && OnCourse(w.runs[r], names) && !w.runs[r].pc.Done?
    requires ValidRepoName(w.runs[r].job.name) && AllPeel(names) && RefNames(w.remote, w.runs[r].job, names)
    requires actor == r ==> !e.Crash? && (e.Advance? ==> !e.ch.fail)
    ensures var t := Step(w, actor, e);
      && r in t.runs && t.runs[r].job == w.runs[r].job && OnCourse(t.runs[r], names)
      && if actor == r && e.Advance? && !Blocked(w, r)
         then StepsToDone(t.runs[r].pc).value < StepsToDone(w.runs[r].pc).value
         else t.runs[r] == w.runs[r]
  {
    hide LocksOk, MirrorOk, CheckoutOk, Act, Step, StepsToDone, MirrorPath, CheckoutPath, At, AllPeel, RefNames,
      ValidRepoName;
    assert RunOk(w, r);
    StepOnRun(w, actor, e, r);
    if actor == r && e.Advance? {
      var run := w.runs[r];
      ActNearsDone(run, At(w.disk, MirrorPath(run.job)), At(w.disk, CheckoutPath(r, run.job)),
                   run.job.key !in w.locks, w.remote, e.ch, names);
    }
  }

  /** What holds of the run at every moment of `more`: its ref names one of `names`. */
  ghost predicate RefStays(w: World, events: seq<(RunId, Event)>, more: seq<(RunId, Event)>, job: Job,
                           names: set<Obj>)
  {
    forall n: nat :: n <= |more| ==> RefNames(Exec(w, events + more[..n]).remote, job, names)
  }

  /** The run is done, and its commit is what the object it fetched, one of `names`, peels to. */
  predicate DoneWith(w: World, r: RunId, names: set<Obj>) {
    && r in w.runs && w.runs[r].pc.Done?
    && w.runs[r].named.Some? && w.runs[r].named.value in names
    && Peel(w.runs[r].named.value) == Some(w.runs[r].pc.commit)
  }

  ghost predicate ComesToDone(w: World, events: seq<(RunId, Event)>, more: seq<(RunId, Event)>, r: RunId,
                              names: set<Obj>)
  {
    exists n: nat :: n <= |more| && DoneWith(Exec(w, events + more[..n]), r, names)
  }

  /** The run is on its way, and its turns so far brought it this near. */
  predicate Underway(w: World, events: seq<(RunId, Event)>, more: seq<(RunId, Event)>, r: RunId, names: set<Obj>) {
    var now := Exec(w, events + more);
    && r in now.runs && r in Exec(w, events).runs && now.runs[r].job == Exec(w, events).runs[r].job
    && OnCourse(now.runs[r], names) && !now.runs[r].pc.Done?
    && OwnTurns(w, events, more, r) + StepsToDone(now.runs[r].pc).value <= 18
  }

  lemma FrontOf(w: World, events: seq<(RunId, Event)>, more: seq<(RunId, Event)>, job: Job, names: set<Obj>)
    requires more != [] && RefStays(w, events, more, job, names)
    ensures RefStays(w, events, more[..|more| - 1], job, names)
    ensures RefNames(Exec(w, events + more[..|more| - 1]).remote, job, names)
  {
    hide RefNames, Exec;
    var front := more[..|more| - 1];
    forall n: nat | n <= |front| ensures RefNames(Exec(w, events + front[..n]).remote, job, names) {
      assert front[..n] == more[..n];
    }
    assert front == more[..|front|];
  }

  lemma DoneEarlier(w: World, events: seq<(RunId, Event)>, more: seq<(RunId, Event)>, r: RunId, names: set<Obj>)
    requires more != []
    ensures ComesToDone(w, events, more[..|more| - 1], r, names) ==> ComesToDone(w, events, more, r, names)
    ensures DoneWith(Exec(w, events + more), r, names) ==> ComesToDone(w, events, more, r, names)
  {
    hide DoneWith, Exec;
    var front := more[..|more| - 1];
    assert more[..|more|] == more;
    assert forall n: nat :: n <= |front| ==> front[..n] == more[..n];
  }

  lemma DoneIsRight(w: World, r: RunId, names: set<Obj>)
    requires Inv(w) && r in w.runs && OnCourse(w.runs[r], names) && w.runs[r].pc.Done?
    ensures DoneWith(w, r, names)
  {
    assert RunOk(w, r);
  }

  lemma {:induction false} GoesOn(w: World, events: seq<(RunId, Event)>, r: RunId, more: seq<(RunId, Event)>,
                                  names: set<Obj>)
    requires Initial(w) && AllPeel(names) && Undisturbed(more, r)
    requires var now := Exec(w, events); r in now.runs && now.runs[r].pc == Start
    requires var job := Exec(w, events).runs[r].job; ValidRepoName(job.name) && RefStays(w, events, more, job, names)
    ensures ComesToDone(w, events, more, r, names) || Underway(w, events, more, r, names)
    decreases more
  {
    if more == [] {
      assert events + more == events;
    } else {
      hide Step, Undisturbed, RefStays, Exec, AllPeel, RefNames, ValidRepoName, Inv, Blocked, ComesToDone, OnCourse,
        StepsToDone, DoneWith;
      var n := |more| - 1;
      var front, last := more[..n], more[n];
      assert events + more == (events + front) + [last];
      FrontOf(w, events, more, Exec(w, events).runs[r].job, names);
      LastUndisturbed(more, r);
      GoesOn(w, events, r, front, names);
      DoneEarlier(w, events, more, r, names);
      if Underway(w, events, front, r, names) {
        ExecKeepsInv(w, events + front);
        ExecKeepsInv(w, events + more);
        ExecSplits(w, events + front, last);
        StepNearsDone(Exec(w, events + front), last.0, last.1, r, names);
        if Exec(w, events + more).runs[r].pc.Done? {
          DoneIsRight(Exec(w, events + more), r, names);
        }
      }
    }
  }

  lemma NotDoneIsFar(run: Run, names: set<Obj>)
    requires OnCourse(run, names) && !run.pc.Done?
    ensures StepsToDone(run.pc).value > 0
  {}

  /** Success: a run with a usable name, whose own commands work and whose ref names one of
      `names` all the while, each of which peels to a commit, is done after at most
      eighteen steps of its own, not counting those spent in front of a lock that another
      run holds; and its commit is what the object it fetched peels to. */
  lemma PrepareSucceeds(w: World, events: seq<(RunId, Event)>, r: RunId, more: seq<(RunId, Event)>, names: set<Obj>)
    requires Initial(w) && AllPeel(names) && Undisturbed(more, r)
    requires var now := Exec(w, events); r in now.runs && now.runs[r].pc == Start
    requires var job := Exec(w, events).runs[r].job; ValidRepoName(job.name) && RefStays(w, events, more, job, names)
    requires OwnTurns(w, events, more, r) >= 18
    ensures exists n: nat :: n <= |more| && DoneWith(Exec(w, events + more[..n]), r, names)
  {
    hide Undisturbed, RefStays, Exec, AllPeel, ValidRepoName, OwnTurns, DoneWith, OnCourse, StepsToDone;
    GoesOn(w, events, r, more, names);
    if Underway(w, events, more, r, names) {
      NotDoneIsFar(Exec(w, events + more).runs[r], names);
    }
  }

  // --------------------------------------------------------- every run ends

  /** At most how many steps of its own a run still makes, however they go. */
  function StepsLeft(pc: Pc): nat {
    var rest := StepsToDone(pc);
    if pc == Unlock(false) then 2
    else if pc == RemoveRunDir then 1
    else if rest.Some? && rest.value > 0 then rest.value + 2
    else 0
  }

  predicate Ended(pc: Pc) {
    pc.Done? || pc.Rejected? || pc.Failed? || pc.Released? || pc.Crashed?
  }

  lemma ActNearsEnd(run: Run, m: Option<Repo>, c: Option<Repo>, free: bool, remote: map<(string, string), Obj>,
                    ch: Choice)
    requires !Ended(run.pc)
    ensures var eff := Act(run, m, c, free, remote, ch);
      && (if run.pc == WaitLock && !free && !ch.fail then eff.run == run else StepsLeft(eff.run.pc) < StepsLeft(run.pc))
      && (eff.run.pc.Failed? ==> run.pc == RemoveRunDir && (eff.run.pc.clean <==> !ch.fail))
  {
    hide Peel;
  }

  /** Whatever fails, every own step brings a run nearer to its end, unless it waits for a
      lock that is taken; and it ends as failed only by trying to remove its directory,
      which is left only when that removal itself fails. */
  lemma EveryRunEnds(w: World, r: RunId, ch: Choice)
    requires r in w.runs && !Ended(w.runs[r].pc)
    ensures StepsLeft(w.runs[r].pc) > 0
    ensures var t := Step(w, r, Advance(ch));
      && (if Blocked(w, r) && !ch.fail then t.runs[r] == w.runs[r]
          else StepsLeft(t.runs[r].pc) < StepsLeft(w.runs[r].pc))
      && (t.runs[r].pc.Failed? ==> w.runs[r].pc == RemoveRunDir && (t.runs[r].pc.clean <==> !ch.fail))
  {
    hide Act, ChangeCheckout, MirrorPath, CheckoutPath, At;
    var run := w.runs[r];
    ActNearsEnd(run, At(w.disk, MirrorPath(run.job)), At(w.disk, CheckoutPath(r, run.job)),
                run.job.key !in w.locks, w.remote, ch);
  }
}
