// The concurrent half of DownloadPath: the main goroutine, the extractor, the
// waiter, the SSH stdout copier and the remote command, joined by a synchronous
// pipe and two one-slot channels. Interleavings are schedules of atomic steps.
module DownloadPipe {
  import opened Strings

  /**
   * What one download depends on besides the schedule. Data is counted in the pieces
   * the copier moves. `stopAt`: the extractor stops by itself after that many (archive end or a
   * rejected entry), with verdict `stopOk`; otherwise it reads to the end of the
   * stream and judges it by `endOk`. `window`: how much the SSH channel holds for a
   * reader that does not read. `mayCut`: the connection may be cut at any time, as
   * when the caller's context ends.
   */
  datatype Config = Config(
    output: nat, exitCode: nat, stopAt: Option<nat>, stopOk: bool, endOk: bool,
    window: nat, mayCut: bool, startFails: bool)

  datatype CopyError = Clean | ClosedPipe | ReaderError
  datatype Copier = NotStarted | Idle | Offering | Stopped(err: CopyError)
  datatype ExtractorPc = Reading | Closing | Sending(ok: bool) | Finished(ok: bool)
  datatype WaitError = NoError | ExitFailure | Lost | CopyFailure(err: CopyError)
  datatype WaiterPc = AwaitExit | AwaitCopier | CloseWriter | SendResult | Ended
  datatype Verdict = Success | StartFailure | ArchiveFailure | RemoteFailure
  datatype MainPc =
    | AwaitExtract | CloseReader(ok: bool) | AwaitWait(ok: bool)
    | AbortClose | AbortJoin
    | Returned(verdict: Verdict)

  datatype State = State(
    left: nat, buffered: nat, exited: bool, cut: bool,
    copier: Copier, lost: nat,
    readerClosed: Option<CopyError>, writerClosed: bool,
    extractor: ExtractorPc, got: nat, extractErr: Option<bool>,
    waiter: WaiterPc, waitCh: Option<WaitError>,
    main: MainPc)

  datatype Actor = Main | Extractor | Waiter | CopierLoop | Remote | Network

  function Init(c: Config): State {
    State(c.output, 0, c.startFails, false,
          if c.startFails then NotStarted else Idle, 0,
          None, false,
          Reading, 0, None,
          if c.startFails then Ended else AwaitExit, None,
          if c.startFails then AbortClose else AwaitExtract)
  }

  /** The error Session.Wait reports: the exit status first, then the copier's error. */
  function WaitResult(c: Config, s: State): WaitError
    requires s.copier.Stopped?
  {
    if s.cut then Lost
    else if c.exitCode != 0 then ExitFailure
    else if s.copier.err == Clean then NoError
    else CopyFailure(s.copier.err)
  }

  /** The tail of DownloadPath up to the installation. */
  function Judge(archiveOk: bool, wait: WaitError): Verdict {
    if !archiveOk then ArchiveFailure
    else if wait == NoError || wait == CopyFailure(ClosedPipe) then Success
    else RemoteFailure
  }

  function StepMain(c: Config, s: State): Option<State> {
    match s.main
    case AwaitExtract =>
      if s.extractErr.Some? then Some(s.(main := CloseReader(s.extractErr.value), extractErr := None)) else None
    case CloseReader(ok) =>
      Some(s.(main := AwaitWait(ok), readerClosed := if s.readerClosed.None? then Some(ClosedPipe) else s.readerClosed))
    case AwaitWait(ok) =>
      if s.waitCh.Some? then Some(s.(main := Returned(Judge(ok, s.waitCh.value)), waitCh := None)) else None
    case AbortClose => Some(s.(main := AbortJoin, writerClosed := true))
    case AbortJoin =>
      if s.extractErr.Some? then Some(s.(main := Returned(StartFailure), extractErr := None)) else None
    case Returned(_) => None
  }

  function StepExtractor(c: Config, s: State): Option<State> {
    match s.extractor
    case Reading =>
      if c.stopAt == Some(s.got) then Some(s.(extractor := if c.stopOk then Sending(true) else Closing))
      else if s.copier == Offering then Some(s.(got := s.got + 1, copier := Idle))
      else if s.writerClosed then Some(s.(extractor := if c.endOk then Sending(true) else Closing))
      else None
    case Closing =>
      Some(s.(extractor := Sending(false),
              readerClosed := if s.readerClosed.None? then Some(ReaderError) else s.readerClosed))
    case Sending(ok) => Some(s.(extractor := Finished(ok), extractErr := Some(ok)))
    case Finished(_) => None
  }

  function StepWaiter(c: Config, s: State): Option<State> {
    match s.waiter
    case AwaitExit => if s.exited then Some(s.(waiter := AwaitCopier)) else None
    case AwaitCopier => if s.copier.Stopped? then Some(s.(waiter := CloseWriter)) else None
    case CloseWriter => Some(s.(waiter := SendResult, writerClosed := true))
    case SendResult => if s.copier.Stopped? then Some(s.(waiter := Ended, waitCh := Some(WaitResult(c, s)))) else None
    case Ended => None
  }

  function StepCopier(c: Config, s: State): Option<State> {
    match s.copier
    case Idle =>
      if s.buffered > 0 then Some(s.(buffered := s.buffered - 1, copier := Offering))
      else if s.exited then Some(s.(copier := Stopped(Clean)))
      else None
    case Offering =>
      if s.readerClosed.Some? then Some(s.(copier := Stopped(s.readerClosed.value), lost := s.lost + 1)) else None
    case _ => None
  }

  function StepRemote(c: Config, s: State): Option<State> {
    if s.exited then None
    else if s.left == 0 then Some(s.(exited := true))
    else if s.buffered < c.window then Some(s.(left := s.left - 1, buffered := s.buffered + 1))
    else None
  }

  function Step(c: Config, s: State, a: Actor): Option<State> {
    match a
    case Main => StepMain(c, s)
    case Extractor => StepExtractor(c, s)
    case Waiter => StepWaiter(c, s)
    case CopierLoop => StepCopier(c, s)
    case Remote => StepRemote(c, s)
    case Network => if c.mayCut && !s.exited then Some(s.(exited := true, cut := true, left := 0)) else None
  }

  /** A schedule offers the next step to one actor after another; a blocked actor passes. */
  function Exec(c: Config, s: State, schedule: seq<Actor>): State
    decreases schedule
  {
    if schedule == [] then s
    else
      var next := Step(c, s, schedule[0]);
      Exec(c, if next.Some? then next.value else s, schedule[1..])
  }

  ghost predicate Stuck(c: Config, s: State) {
    forall a: Actor :: Step(c, s, a).None?
  }

  /** Pieces the extractor consumes, and its verdict, when the connection holds. */
  function Consumed(c: Config): nat {
    if c.stopAt.Some? && c.stopAt.value <= c.output then c.stopAt.value else c.output
  }

  function ArchiveVerdict(c: Config): bool {
    if c.stopAt.Some? && c.stopAt.value <= c.output then c.stopOk else c.endOk
  }

  predicate InTransitAccounted(c: Config, s: State) {
    && s.buffered <= c.window
    && (!s.cut && !c.startFails ==>
          c.output == s.left + s.buffered + (if s.copier == Offering then 1 else 0) + s.got + s.lost)
    && (s.cut ==> c.mayCut && !c.startFails)
    && (c.startFails ==> s.exited)
    && (s.exited && !c.startFails ==> s.left == 0)
    && (c.stopAt.Some? ==> s.got <= c.stopAt.value)
  }

  predicate CopierOk(c: Config, s: State) {
    match s.copier
    case NotStarted => c.startFails && s.lost == 0
    case Idle => !c.startFails && s.lost == 0
    case Offering => !c.startFails && s.lost == 0
    case Stopped(err) =>
      && !c.startFails
      && (err == Clean ==> s.lost == 0 && s.buffered == 0 && s.exited)
      && (err != Clean ==> s.lost == 1 && s.readerClosed == Some(err))
  }

  predicate ExtractorOk(c: Config, s: State) {
    && (s.extractErr.Some? ==> s.extractor == Finished(s.extractErr.value))
    && (s.extractor.Reading? || s.extractor.Closing? ==> s.readerClosed.None?)
    && (s.readerClosed == Some(ReaderError) ==> s.extractor == Sending(false) || s.extractor == Finished(false))
    && (s.readerClosed == Some(ClosedPipe) ==> s.main.AwaitWait? || s.main.Returned?)
    && s.readerClosed != Some(Clean)
    && (s.extractor.Finished? && !s.extractor.ok ==> s.readerClosed == Some(ReaderError))
    && (s.extractor == Sending(false) ==> s.readerClosed == Some(ReaderError))
    && (!s.extractor.Reading? && !s.cut && !c.startFails ==>
          && s.got == Consumed(c)
          && (s.extractor.Closing? ==> !ArchiveVerdict(c))
          && (s.extractor.Sending? || s.extractor.Finished? ==> s.extractor.ok == ArchiveVerdict(c)))
  }

  predicate WaiterOk(c: Config, s: State) {
    && (c.startFails ==> s.waiter.Ended? && s.waitCh.None?)
    && (!s.waiter.AwaitExit? ==> s.exited)
    && (!c.startFails && (s.waiter.CloseWriter? || s.waiter.SendResult? || s.waiter.Ended?) ==> s.copier.Stopped?)
    && (s.writerClosed && !c.startFails ==> s.waiter.SendResult? || s.waiter.Ended?)
    && (!c.startFails && (s.waiter.SendResult? || s.waiter.Ended?) ==> s.writerClosed)
    && (s.waitCh.Some? ==> s.waiter.Ended? && s.copier.Stopped? && s.waitCh.value == WaitResult(c, s))
    && (s.waiter.Ended? && !c.startFails && !s.main.Returned? ==> s.waitCh.Some?)
  }

  predicate MainOk(c: Config, s: State) {
    && (c.startFails <==> s.main.AbortClose? || s.main.AbortJoin? || s.main == Returned(StartFailure))
    && (s.main.AbortClose? ==> !s.writerClosed)
    && (s.main.AbortJoin? ==> s.writerClosed)
    && (!s.main.Returned? && !s.main.CloseReader? && !s.main.AwaitWait? && s.extractor.Finished? ==> s.extractErr.Some?)
    && (s.main.CloseReader? || s.main.AwaitWait? ==> s.extractor == Finished(s.main.ok))
    && (s.main.AwaitWait? ==> s.readerClosed.Some?)
    && (s.main.Returned? && !c.startFails ==>
          && s.extractor.Finished? && s.waiter.Ended? && s.copier.Stopped?
          && s.main.verdict == Judge(s.extractor.ok, WaitResult(c, s)))
  }

  predicate Inv(c: Config, s: State) {
    && InTransitAccounted(c, s)
    && CopierOk(c, s)
    && ExtractorOk(c, s)
    && WaiterOk(c, s)
    && MainOk(c, s)
  }

  lemma InitInv(c: Config)
    ensures Inv(c, Init(c))
  {
  }

  lemma MainKeepsInvData(c: Config, s: State)
    requires Inv(c, s) && StepMain(c, s).Some?
    ensures var t := StepMain(c, s).value; InTransitAccounted(c, t) && CopierOk(c, t) && ExtractorOk(c, t)
  {
    hide Judge, WaitResult;
  }

  lemma MainKeepsInvControl(c: Config, s: State)
    requires Inv(c, s) && StepMain(c, s).Some?
    ensures var t := StepMain(c, s).value; WaiterOk(c, t) && MainOk(c, t)
  {
    hide ArchiveVerdict, Consumed;
  }

  lemma MainKeepsInv(c: Config, s: State)
    requires Inv(c, s) && StepMain(c, s).Some?
    ensures Inv(c, StepMain(c, s).value)
  {
    MainKeepsInvData(c, s);
    MainKeepsInvControl(c, s);
  }

  /** Whether the extractor is done with the stream: by itself, or at its end. */
  predicate Decides(c: Config, s: State) {
    s.extractor.Reading? && (c.stopAt == Some(s.got) || (s.copier != Offering && s.writerClosed))
  }

  lemma DecisionIsFinal(c: Config, s: State)
    requires Inv(c, s) && Decides(c, s) && !s.cut && !c.startFails
    ensures s.got == Consumed(c)
    ensures ArchiveVerdict(c) == if c.stopAt == Some(s.got) then c.stopOk else c.endOk
  {
  }

  lemma DecidingKeepsInv(c: Config, s: State)
    requires Inv(c, s) && Decides(c, s)
    ensures Inv(c, StepExtractor(c, s).value)
  {
    if !s.cut && !c.startFails {
      DecisionIsFinal(c, s);
    }
    var t := StepExtractor(c, s).value;
    assert t == s.(extractor :=
      if (if c.stopAt == Some(s.got) then c.stopOk else c.endOk) then Sending(true) else Closing);
    assert ExtractorOk(c, t);
  }

  lemma ReadingKeepsInv(c: Config, s: State)
    requires Inv(c, s) && s.extractor.Reading? && !Decides(c, s) && StepExtractor(c, s).Some?
    ensures Inv(c, StepExtractor(c, s).value)
  {
    assert StepExtractor(c, s).value == s.(got := s.got + 1, copier := Idle);
  }

  lemma ReportingKeepsInvData(c: Config, s: State)
    requires Inv(c, s) && !s.extractor.Reading? && StepExtractor(c, s).Some?
    ensures var t := StepExtractor(c, s).value; InTransitAccounted(c, t) && CopierOk(c, t) && ExtractorOk(c, t)
  {
    hide Judge, WaitResult;
  }

  lemma ReportingKeepsInvControl(c: Config, s: State)
    requires Inv(c, s) && !s.extractor.Reading? && StepExtractor(c, s).Some?
    ensures var t := StepExtractor(c, s).value; WaiterOk(c, t) && MainOk(c, t)
  {
    hide Judge, ArchiveVerdict, Consumed;
  }

  lemma ReportingKeepsInv(c: Config, s: State)
    requires Inv(c, s) && !s.extractor.Reading? && StepExtractor(c, s).Some?
    ensures Inv(c, StepExtractor(c, s).value)
  {
    ReportingKeepsInvData(c, s);
    ReportingKeepsInvControl(c, s);
  }

  lemma ExtractorKeepsInv(c: Config, s: State)
    requires Inv(c, s) && StepExtractor(c, s).Some?
    ensures Inv(c, StepExtractor(c, s).value)
  {
    if Decides(c, s) {
      DecidingKeepsInv(c, s);
    } else if s.extractor.Reading? {
      ReadingKeepsInv(c, s);
    } else {
      ReportingKeepsInv(c, s);
    }
  }

  lemma WaiterKeepsInvData(c: Config, s: State)
    requires Inv(c, s) && StepWaiter(c, s).Some?
    ensures var t := StepWaiter(c, s).value; InTransitAccounted(c, t) && CopierOk(c, t) && ExtractorOk(c, t)
  {
    hide Judge, WaitResult;
  }

  lemma WaiterKeepsInvControl(c: Config, s: State)
    requires Inv(c, s) && StepWaiter(c, s).Some?
    ensures var t := StepWaiter(c, s).value; WaiterOk(c, t) && MainOk(c, t)
  {
    hide Judge, ArchiveVerdict, Consumed;
  }

  lemma WaiterKeepsInv(c: Config, s: State)
    requires Inv(c, s) && StepWaiter(c, s).Some?
    ensures Inv(c, StepWaiter(c, s).value)
  {
    WaiterKeepsInvData(c, s);
    WaiterKeepsInvControl(c, s);
  }

  lemma CopierKeepsInvData(c: Config, s: State)
    requires Inv(c, s) && StepCopier(c, s).Some?
    ensures var t := StepCopier(c, s).value; InTransitAccounted(c, t) && CopierOk(c, t) && ExtractorOk(c, t)
  {
    hide Judge, WaitResult;
  }

  lemma CopierKeepsInvControl(c: Config, s: State)
    requires Inv(c, s) && StepCopier(c, s).Some?
    ensures var t := StepCopier(c, s).value; WaiterOk(c, t) && MainOk(c, t)
  {
    hide Judge, ArchiveVerdict, Consumed;
  }

  lemma CopierKeepsInv(c: Config, s: State)
    requires Inv(c, s) && StepCopier(c, s).Some?
    ensures Inv(c, StepCopier(c, s).value)
  {
    CopierKeepsInvData(c, s);
    CopierKeepsInvControl(c, s);
  }

  lemma RemoteKeepsInvData(c: Config, s: State, a: Actor)
    requires Inv(c, s) && (a == Remote || a == Network) && Step(c, s, a).Some?
    ensures var t := Step(c, s, a).value; InTransitAccounted(c, t) && CopierOk(c, t) && ExtractorOk(c, t)
  {
    hide Judge, WaitResult, ArchiveVerdict, Consumed;
  }

  lemma RemoteKeepsInvControl(c: Config, s: State, a: Actor)
    requires Inv(c, s) && (a == Remote || a == Network) && Step(c, s, a).Some?
    ensures var t := Step(c, s, a).value; WaiterOk(c, t) && MainOk(c, t)
  {
    hide Judge, ArchiveVerdict, Consumed;
  }

  lemma RemoteKeepsInv(c: Config, s: State, a: Actor)
    requires Inv(c, s) && (a == Remote || a == Network) && Step(c, s, a).Some?
    ensures Inv(c, Step(c, s, a).value)
  {
    RemoteKeepsInvData(c, s, a);
    RemoteKeepsInvControl(c, s, a);
  }

  lemma StepKeepsInv(c: Config, s: State, a: Actor)
    requires Inv(c, s) && Step(c, s, a).Some?
    ensures Inv(c, Step(c, s, a).value)
  {
    match a
    case Main => MainKeepsInv(c, s);
    case Extractor => ExtractorKeepsInv(c, s);
    case Waiter => WaiterKeepsInv(c, s);
    case CopierLoop => CopierKeepsInv(c, s);
    case Remote => RemoteKeepsInv(c, s, a);
    case Network => RemoteKeepsInv(c, s, a);
  }

  lemma {:induction false} ExecKeepsInv(c: Config, s: State, schedule: seq<Actor>)
    requires Inv(c, s)
    ensures Inv(c, Exec(c, s, schedule))
    decreases schedule
  {
    if schedule != [] {
      var next := Step(c, s, schedule[0]);
      if next.Some? {
        StepKeepsInv(c, s, schedule[0]);
      }
      ExecKeepsInv(c, if next.Some? then next.value else s, schedule[1..]);
    }
  }

  /** When the download can finish: what the extractor leaves unread, less the one piece the
      copier already holds, must fit in the channel, unless something can cut the connection. */
  predicate Completes(c: Config) {
    c.startFails || c.mayCut || c.stopAt.None? || c.output <= c.stopAt.value + 1 + c.window
  }

  /** The only way to wait for ever: the copier is gone and the remote faces a full channel. */
  predicate Jammed(c: Config, s: State) {
    s.copier.Stopped? && !s.exited && s.left > 0 && s.buffered == c.window && !c.mayCut
  }

  lemma StuckMeansJammed(c: Config, s: State)
    requires Inv(c, s) && c.window >= 1 && Stuck(c, s) && !s.main.Returned?
    ensures Jammed(c, s)
  {
    assert StepMain(c, s) == Step(c, s, Main) == None;
    assert StepExtractor(c, s) == Step(c, s, Extractor) == None;
    assert StepWaiter(c, s) == Step(c, s, Waiter) == None;
    assert StepCopier(c, s) == Step(c, s, CopierLoop) == None;
    assert StepRemote(c, s) == Step(c, s, Remote) == None;
    assert Step(c, s, Network) == None;
  }

  lemma JammedNeverCompletes(c: Config, s: State)
    requires Inv(c, s) && Jammed(c, s)
    ensures !Completes(c)
  {
    assert s.copier.err != Clean && s.lost == 1 && s.readerClosed.Some?;
    assert !s.extractor.Reading? && s.got == Consumed(c);
  }

  lemma IncompleteNeverReturns(c: Config, s: State)
    requires Inv(c, s) && !Completes(c)
    ensures !s.main.Returned?
  {
  }

  function CopierRank(p: Copier): nat {
    match p case NotStarted => 0 case Idle => 1 case Offering => 3 case Stopped(_) => 0
  }

  function ExtractorRank(p: ExtractorPc): nat {
    match p case Reading => 3 case Closing => 2 case Sending(_) => 1 case Finished(_) => 0
  }

  function WaiterRank(p: WaiterPc): nat {
    match p case AwaitExit => 4 case AwaitCopier => 3 case CloseWriter => 2 case SendResult => 1 case Ended => 0
  }

  function MainRank(p: MainPc): nat {
    match p
    case AwaitExtract => 3 case CloseReader(_) => 2 case AwaitWait(_) => 1
    case AbortClose => 2 case AbortJoin => 1 case Returned(_) => 0
  }

  /** A bound on the steps still to come: every step uses some of it up. */
  function Rank(s: State): nat {
    4 * s.left + 3 * s.buffered + (if s.exited then 0 else 1)
    + CopierRank(s.copier) + ExtractorRank(s.extractor) + WaiterRank(s.waiter) + MainRank(s.main)
  }

  lemma MainUsesRank(c: Config, s: State)
    requires StepMain(c, s).Some?
    ensures Rank(StepMain(c, s).value) < Rank(s)
  {
    hide Judge, CopierRank, ExtractorRank, WaiterRank;
  }

  lemma ExtractorUsesRank(c: Config, s: State)
    requires StepExtractor(c, s).Some?
    ensures Rank(StepExtractor(c, s).value) < Rank(s)
  {
  }

  lemma WaiterUsesRank(c: Config, s: State)
    requires StepWaiter(c, s).Some?
    ensures Rank(StepWaiter(c, s).value) < Rank(s)
  {
  }

  lemma CopierUsesRank(c: Config, s: State)
    requires StepCopier(c, s).Some?
    ensures Rank(StepCopier(c, s).value) < Rank(s)
  {
  }

  lemma RemoteUsesRank(c: Config, s: State)
    requires StepRemote(c, s).Some?
    ensures Rank(StepRemote(c, s).value) < Rank(s)
  {
  }

  lemma EveryStepUsesRank(c: Config, s: State, a: Actor)
    requires Step(c, s, a).Some?
    ensures Rank(Step(c, s, a).value) < Rank(s)
  {
    match a
    case Main => MainUsesRank(c, s);
    case Extractor => ExtractorUsesRank(c, s);
    case Waiter => WaiterUsesRank(c, s);
    case CopierLoop => CopierUsesRank(c, s);
    case Remote => RemoteUsesRank(c, s);
    case Network =>
  }

  /** Every run can be carried on until nobody can move, in at most Rank steps. */
  lemma {:induction false} RunsEnd(c: Config, s: State) returns (schedule: seq<Actor>)
    ensures Stuck(c, Exec(c, s, schedule)) && |schedule| <= Rank(s)
    decreases Rank(s)
  {
    if Stuck(c, s) {
      schedule := [];
    } else {
      var a :| Step(c, s, a).Some?;
      EveryStepUsesRank(c, s, a);
      var rest := RunsEnd(c, Step(c, s, a).value);
      schedule := [a] + rest;
      assert schedule[1..] == rest;
    }
  }

  /** On every schedule: main never hangs while the download can complete, and when it
      cannot, no schedule lets main return. */
  lemma NoDeadlock(c: Config, schedule: seq<Actor>)
    requires c.window >= 1
    ensures var s := Exec(c, Init(c), schedule);
      && (Completes(c) && !s.main.Returned? ==> !Stuck(c, s))
      && (!Completes(c) ==> !s.main.Returned?)
  {
    var s := Exec(c, Init(c), schedule);
    InitInv(c);
    ExecKeepsInv(c, Init(c), schedule);
    if Stuck(c, s) && !s.main.Returned? {
      StuckMeansJammed(c, s);
      JammedNeverCompletes(c, s);
    }
    if !Completes(c) {
      IncompleteNeverReturns(c, s);
    }
  }

  /** Every run that cannot go on has returned, exactly when the download can complete. */
  lemma ReturnsExactlyWhen(c: Config)
    requires c.window >= 1
    ensures Completes(c) <==>
      forall schedule :: Stuck(c, Exec(c, Init(c), schedule)) ==> Exec(c, Init(c), schedule).main.Returned?
  {
    forall schedule | Completes(c) && Stuck(c, Exec(c, Init(c), schedule))
      ensures Exec(c, Init(c), schedule).main.Returned?
    {
      NoDeadlock(c, schedule);
    }
    var run := RunsEnd(c, Init(c));
    NoDeadlock(c, run);
  }

  /** A rejected archive of which enough is still to come: the extractor stops at once,
      nobody reads on, and no time limit applies. */
  const HANGING := Config(4, 0, Some(0), false, true, 1, false, false)

  const HANGING_SCHEDULE :=
    [Remote, CopierLoop, Remote, Extractor, Extractor, Extractor, CopierLoop, Main, Main]

  lemma ExecFrom(c: Config, s: State, schedule: seq<Actor>, i: nat)
    requires i < |schedule|
    ensures Exec(c, s, schedule[i..])
         == Exec(c, if Step(c, s, schedule[i]).Some? then Step(c, s, schedule[i]).value else s, schedule[i + 1..])
  {
    assert schedule[i..][1..] == schedule[i + 1..];
  }

  /** The condition is not idle: here is a download that waits for ever. Main has its
      verdict and waits for the command, the command waits for room in the channel. */
  lemma RejectedArchiveHangs()
    ensures !Completes(HANGING)
    ensures var s := Exec(HANGING, Init(HANGING), HANGING_SCHEDULE);
      Stuck(HANGING, s) && Jammed(HANGING, s) && s.main == AwaitWait(false)
  {
    hide Exec;
    var s0 := Init(HANGING);
    var s3 := s0.(left := 2, buffered := 1, copier := Offering);
    var s6 := s3.(extractor := Finished(false), extractErr := Some(false), readerClosed := Some(ReaderError));
    var s7 := s6.(copier := Stopped(ReaderError), lost := 1);
    assert HANGING_SCHEDULE[0..] == HANGING_SCHEDULE;
    ExecFrom(HANGING, s0, HANGING_SCHEDULE, 0);
    ExecFrom(HANGING, s0.(left := 3, buffered := 1), HANGING_SCHEDULE, 1);
    ExecFrom(HANGING, s0.(left := 3, copier := Offering), HANGING_SCHEDULE, 2);
    ExecFrom(HANGING, s3, HANGING_SCHEDULE, 3);
    ExecFrom(HANGING, s3.(extractor := Closing), HANGING_SCHEDULE, 4);
    ExecFrom(HANGING, s3.(extractor := Sending(false), readerClosed := Some(ReaderError)), HANGING_SCHEDULE, 5);
    ExecFrom(HANGING, s6, HANGING_SCHEDULE, 6);
    ExecFrom(HANGING, s7, HANGING_SCHEDULE, 7);
    ExecFrom(HANGING, s7.(main := CloseReader(false), extractErr := None), HANGING_SCHEDULE, 8);
    var s9 := s7.(main := AwaitWait(false), extractErr := None);
    NothingFollows(HANGING, s9);
    StandStill(s9);
  }

  lemma NothingFollows(c: Config, s: State)
    ensures Exec(c, s, HANGING_SCHEDULE[9..]) == s
  {
  }

  lemma StandStill(s: State)
    requires s == Init(HANGING).(left := 2, buffered := 1, copier := Stopped(ReaderError), lost := 1,
                                 main := AwaitWait(false), extractor := Finished(false),
                                 readerClosed := Some(ReaderError))
    ensures Stuck(HANGING, s) && Jammed(HANGING, s)
  {
  }

  /** The verdict an uncut download ends with, from its data alone. */
  function ExpectedVerdict(c: Config): Verdict {
    if c.startFails then StartFailure
    else if !ArchiveVerdict(c) then ArchiveFailure
    else if c.exitCode != 0 then RemoteFailure
    else Success
  }

  /** The schedule never changes the verdict: closing the pipe early is not mistaken for a failure. */
  lemma VerdictIgnoresSchedule(c: Config, schedule: seq<Actor>)
    ensures var s := Exec(c, Init(c), schedule);
      s.main.Returned? && !s.cut ==> s.main.verdict == ExpectedVerdict(c)
  {
    InitInv(c);
    ExecKeepsInv(c, Init(c), schedule);
    var s := Exec(c, Init(c), schedule);
    if s.main.Returned? && !s.cut && !c.startFails {
      assert s.copier.err == ReaderError ==> !s.extractor.ok;
    }
  }

  /** What a success means, on every schedule, cut connections included: the transfer was
      started and never cut, the archive was accepted and the command ended with status
      zero. A download whose connection was lost is never reported as one. */
  lemma SuccessMeansComplete(c: Config, schedule: seq<Actor>)
    ensures var s := Exec(c, Init(c), schedule);
      s.main.Returned? ==>
        && (s.main.verdict == Success <==> !c.startFails && !s.cut && c.exitCode == 0 && ArchiveVerdict(c))
        && (s.cut ==> s.main.verdict == ArchiveFailure || s.main.verdict == RemoteFailure)
  {
    InitInv(c);
    ExecKeepsInv(c, Init(c), schedule);
    VerdictIgnoresSchedule(c, schedule);
  }
}
