// pumpInteractiveSession: the select loop, its two copying goroutines and the
// channels between them, over every schedule of their atomic steps.
module Terminal {
  import opened Strings
  import opened Disk

  /** One interactive run: whether stdin is a file, what it holds, and what the session
      prints before its end of stream. */
  datatype Config = Config(file: bool, input: seq<Byte>, output: seq<Byte>, resizable: bool)

  datatype CopyResult = Copied | Cancelled | Failed
  datatype ReadEnd = More | EndOfInput | ReadFailed

  datatype InputPc =
    | Check                                       // about to look at the pump's context
    | Poll
    | Read
    | Write(chunk: seq<Byte>, end: ReadEnd)
    | Report(result: CopyResult)
    | InputEnded

  datatype OutputPc = Receive | Print(chunk: seq<Byte>) | Announce(result: CopyResult) | OutputEnded

  /** The input goroutine, its channel, and main's two variables about it. `isFile` and
      `isNil` are inputIsFile and "inputDone == nil"; `drained` counts receives. `invalid`
      records that the poll reported the file as invalid, `result` what the goroutine
      ended with. */
  datatype InputSide = InputSide(
    isFile: bool, isNil: bool, done: Option<CopyResult>, drained: nat,
    pc: InputPc, consumed: nat, sent: seq<Byte>, writeFailed: bool, invalid: bool, result: Option<CopyResult>)

  datatype OutputSide = OutputSide(
    done: Option<CopyResult>, drained: nat,
    pc: OutputPc, received: nat, printed: seq<Byte>, result: Option<CopyResult>)

  datatype Resize = Resize(isNil: bool, closed: bool, pending: bool)

  datatype Ret = Nil | ContextError | OutputError | InputError | SizeError | ResizeError
  datatype MainPc = Select | Stopping(ret: Ret) | Returned(ret: Ret)

  datatype State = State(main: MainPc, ctxDone: bool, cancelled: bool, input: InputSide, output: OutputSide,
                         resize: Resize)

  /** What the poll call reports. */
  datatype PollResult = Interrupted | PollFailed | NothingYet | InvalidFile | Ready

  datatype MainEvent = TakeContext | TakeOutput | TakeInput | TakeResize(sizeOk: bool, resizeOk: bool) | FinishStopping
  datatype InputEvent =
    | Checks | Polls(result: PollResult) | Reads(n: nat, end: ReadEnd) | Writes(accepted: nat, ok: bool) | Reports
  datatype OutputEvent = Receives(n: nat, end: ReadEnd) | Prints(accepted: nat, ok: bool) | Announces
  datatype WorldEvent = CallerCancels | WindowChanges | WindowSignalsEnd

  /** An atomic step together with what the outside world answers in it. */
  datatype Event = OfMain(m: MainEvent) | OfInput(i: InputEvent) | OfOutput(o: OutputEvent) | OfWorld(w: WorldEvent)

  function Init(c: Config): State {
    State(Select, false, false,
          InputSide(c.file, false, None, 0, if c.file then Check else Read, 0, [], false, false, None),
          OutputSide(None, 0, Receive, 0, [], None),
          Resize(!c.resizable, false, false))
  }

  /** stopInput followed by a return: it waits for the input goroutine only for a file. */
  function StopThenReturn(s: State, ret: Ret): State {
    s.(main := if s.input.isFile then Stopping(ret) else Returned(ret), cancelled := true)
  }

  /** Receiving from inputDone, after which inputIsFile is false. */
  function Drain(i: InputSide): InputSide {
    i.(done := None, drained := i.drained + 1, isFile := false)
  }

  function StepMain(s: State, e: MainEvent): Option<State> {
    match e
    case TakeContext =>
      if s.main == Select && s.ctxDone then Some(StopThenReturn(s, ContextError)) else None
    case TakeOutput =>
      if s.main == Select && s.output.done.Some? then
        Some(StopThenReturn(s.(output := s.output.(done := None, drained := s.output.drained + 1)),
                            if s.output.done.value == Copied then Nil else OutputError))
      else None
    case TakeInput =>
      if s.main == Select && !s.input.isNil && s.input.done.Some? then
        if s.input.done.value == Copied then Some(s.(input := Drain(s.input).(isNil := true)))
        else Some(s.(input := Drain(s.input), main := Returned(InputError), cancelled := true))
      else None
    case TakeResize(sizeOk, resizeOk) =>
      if s.main != Select || s.resize.isNil then None
      else if s.resize.pending then
        var t := s.(resize := s.resize.(pending := false));
        Some(if !sizeOk then StopThenReturn(t, SizeError) else if !resizeOk then StopThenReturn(t, ResizeError) else t)
      else if s.resize.closed then Some(s.(resize := s.resize.(isNil := true)))
      else None
    case FinishStopping =>
      if s.main.Stopping? && !s.input.isNil && s.input.done.Some? then
        Some(s.(input := Drain(s.input), main := Returned(s.main.ret)))
      else None
  }

  /** copyInteractiveFile for a file, io.Copy otherwise. */
  function StepInput(c: Config, i: InputSide, stop: bool, e: InputEvent): Option<InputSide> {
    match e
    case Checks =>
      if i.pc != Check then None else Some(i.(pc := if stop then Report(Cancelled) else Poll))
    case Polls(result) =>
      if i.pc != Poll then None
      else
        Some(i.(invalid := result == InvalidFile,
                pc := match result
                      case Interrupted | NothingYet => Check
                      case PollFailed => Report(Failed)
                      case InvalidFile => Report(Copied)
                      case Ready => Read))
    case Reads(n, end) =>
      if i.pc != Read || i.consumed + n > |c.input| || (end == EndOfInput && i.consumed + n < |c.input|) then None
      else Some(i.(pc := Write(c.input[i.consumed..i.consumed + n], end), consumed := i.consumed + n))
    case Writes(accepted, ok) =>
      if !i.pc.Write? || accepted > |i.pc.chunk| || (ok && accepted < |i.pc.chunk|) then None
      else Some(i.(sent := i.sent + i.pc.chunk[..accepted], writeFailed := !ok, pc := AfterWrite(c, i.pc.end, ok)))
    case Reports =>
      if !i.pc.Report? then None else Some(i.(pc := InputEnded, done := Some(i.pc.result), result := Some(i.pc.result)))
  }

  function AfterWrite(c: Config, end: ReadEnd, ok: bool): InputPc {
    if !ok then Report(Failed)
    else
      match end
      case More => if c.file then Check else Read
      case EndOfInput => Report(Copied)
      case ReadFailed => Report(Failed)
  }

  function StepOutput(c: Config, o: OutputSide, e: OutputEvent): Option<OutputSide> {
    match e
    case Receives(n, end) =>
      if o.pc != Receive || o.received + n > |c.output| then None
      else if n > 0 then Some(o.(pc := Print(c.output[o.received..o.received + n]), received := o.received + n))
      else if end == ReadFailed then Some(o.(pc := Announce(Failed)))
      else if end == EndOfInput && o.received == |c.output| then Some(o.(pc := Announce(Copied)))
      else None
    case Prints(accepted, ok) =>
      if !o.pc.Print? || accepted > |o.pc.chunk| || (ok && accepted < |o.pc.chunk|) then None
      else Some(o.(printed := o.printed + o.pc.chunk[..accepted], pc := if ok then Receive else Announce(Failed)))
    case Announces =>
      if !o.pc.Announce? then None
      else Some(o.(pc := OutputEnded, done := Some(o.pc.result), result := Some(o.pc.result)))
  }

  function StepWorld(s: State, e: WorldEvent): State {
    match e
    case CallerCancels => s.(ctxDone := true)
    case WindowChanges => s.(resize := s.resize.(pending := s.resize.pending || !s.resize.closed))
    case WindowSignalsEnd => s.(resize := s.resize.(closed := true))
  }

  function Step(c: Config, s: State, e: Event): Option<State> {
    match e
    case OfMain(m) => StepMain(s, m)
    case OfInput(i) =>
      var next := StepInput(c, s.input, s.ctxDone || s.cancelled, i);
      if next.None? then None else Some(s.(input := next.value))
    case OfOutput(o) =>
      var next := StepOutput(c, s.output, o);
      if next.None? then None else Some(s.(output := next.value))
    case OfWorld(w) => Some(StepWorld(s, w))
  }

  /** Any finite run: events that are not enabled where they stand are skipped. */
  function Exec(c: Config, s: State, events: seq<Event>): State
    decreases events
  {
    if events == [] then s
    else
      var next := Step(c, s, events[0]);
      Exec(c, if next.Some? then next.value else s, events[1..])
  }

  /** The input channel carries one message, and inputIsFile means it is still to be received. */
  predicate InputChannelOk(c: Config, i: InputSide) {
    && i.drained <= 1
    && (i.done.Some? ==> i.pc.InputEnded? && i.drained == 0)
    && (i.pc.InputEnded? <==> i.done.Some? || i.drained == 1)
    && (i.isFile <==> c.file && i.drained == 0)
    && (i.isNil ==> i.drained == 1)
    && (i.pc.InputEnded? <==> i.result.Some?)
    && (i.done.Some? ==> i.done == i.result)
  }

  /** Every byte taken from stdin is sent or waiting to be sent, unless a write failed. */
  predicate InputDataOk(c: Config, i: InputSide) {
    && i.consumed <= |c.input|
    && i.sent <= c.input
    && (i.pc.Write? ==> i.sent + i.pc.chunk == c.input[..i.consumed])
    && (!i.writeFailed && !i.pc.Write? ==> i.sent == c.input[..i.consumed])
    && (i.writeFailed ==> i.pc == Report(Failed) || i.result == Some(Failed))
    && (i.pc.Write? && i.pc.end == EndOfInput ==> i.consumed == |c.input|)
    && (i.pc == Report(Copied) || i.result == Some(Copied) ==> i.invalid || i.sent == c.input)
  }

  predicate OutputOk(c: Config, o: OutputSide) {
    && o.drained <= 1
    && (o.done.Some? ==> o.pc.OutputEnded? && o.drained == 0)
    && (o.pc.OutputEnded? <==> o.done.Some? || o.drained == 1)
    && (o.pc.OutputEnded? <==> o.result.Some?)
    && (o.done.Some? ==> o.done == o.result)
    && (o.pc.Announce? ==> o.pc.result != Cancelled) && o.result != Some(Cancelled)
    && (o.done == Some(Copied) ==> o.printed == c.output)
    && o.received <= |c.output|
    && o.printed <= c.output
    && (o.pc.Receive? ==> o.printed == c.output[..o.received])
    && (o.pc.Print? ==> o.printed + o.pc.chunk == c.output[..o.received])
    && (o.pc == Announce(Copied) ==> o.printed == c.output)
  }

  /** Each return value has its cause. */
  predicate RetOk(c: Config, s: State, ret: Ret) {
    && (s.output.drained == 1 <==> ret == Nil || ret == OutputError)
    && (ret == Nil ==> s.output.result == Some(Copied))
    && (ret == OutputError ==> s.output.result == Some(Failed))
    && (ret == InputError ==> s.input.drained == 1 && s.input.result.Some? && s.input.result != Some(Copied))
    && (ret == ContextError ==> s.ctxDone)
    && (ret == SizeError || ret == ResizeError ==> c.resizable)
  }

  predicate MainOk(c: Config, s: State) {
    && (!s.main.Select? ==> RetOk(c, s, s.main.ret))
    && (!c.resizable ==> s.resize.isNil)
    && (s.main.Stopping? ==> s.input.isFile)
    && (!s.main.Select? ==> s.cancelled)
    && (s.main.Returned? && c.file ==> s.input.drained == 1)
    && (s.output.drained == 1 ==> !s.main.Select?)
    && (!s.main.Select? && s.main.ret == Nil ==> s.output.printed == c.output && s.output.pc.OutputEnded?)
  }

  predicate Inv(c: Config, s: State) {
    InputChannelOk(c, s.input) && InputDataOk(c, s.input) && OutputOk(c, s.output) && MainOk(c, s)
  }

  lemma MainKeepsSides(c: Config, s: State, e: MainEvent)
    requires Inv(c, s) && StepMain(s, e).Some?
    ensures var t := StepMain(s, e).value;
      InputChannelOk(c, t.input) && InputDataOk(c, t.input) && OutputOk(c, t.output)
  {
    hide RetOk;
  }

  lemma MainKeepsMain(c: Config, s: State, e: MainEvent)
    requires Inv(c, s) && StepMain(s, e).Some?
    ensures MainOk(c, StepMain(s, e).value)
  {
    hide InputDataOk;
  }

  lemma MainKeepsInv(c: Config, s: State, e: MainEvent)
    requires Inv(c, s) && StepMain(s, e).Some?
    ensures Inv(c, StepMain(s, e).value)
  {
    hide StepMain, InputChannelOk, InputDataOk, OutputOk, MainOk;
    MainKeepsSides(c, s, e);
    MainKeepsMain(c, s, e);
  }

  lemma ReadTakesNext(data: seq<Byte>, from: nat, n: nat)
    requires from + n <= |data|
    ensures data[..from] + data[from..from + n] == data[..from + n]
  {
  }

  lemma PartialWrite(before: seq<Byte>, chunk: seq<Byte>, accepted: nat, data: seq<Byte>)
    requires accepted <= |chunk| && before + chunk <= data
    ensures before + chunk[..accepted] <= data
    ensures accepted == |chunk| ==> before + chunk[..accepted] == before + chunk
  {
    assert before + chunk[..accepted] == (before + chunk)[..|before| + accepted];
  }

  lemma InputKeepsInv(c: Config, i: InputSide, stop: bool, e: InputEvent)
    requires InputChannelOk(c, i) && InputDataOk(c, i) && StepInput(c, i, stop, e).Some?
    ensures var j := StepInput(c, i, stop, e).value;
      && InputChannelOk(c, j) && InputDataOk(c, j)
      && j.isFile == i.isFile && j.drained == i.drained
  {
    assert c.input[..|c.input|] == c.input;
    if e.Reads? {
      ReadTakesNext(c.input, i.consumed, e.n);
    }
    if e.Writes? {
      PartialWrite(i.sent, i.pc.chunk, e.accepted, c.input);
    }
  }

  lemma OutputKeepsInv(c: Config, o: OutputSide, e: OutputEvent)
    requires OutputOk(c, o) && StepOutput(c, o, e).Some?
    ensures var p := StepOutput(c, o, e).value;
      OutputOk(c, p) && p.drained == o.drained && !o.pc.OutputEnded?
  {
    assert c.output[..|c.output|] == c.output;
    if e.Receives? {
      ReadTakesNext(c.output, o.received, e.n);
    }
    if e.Prints? {
      PartialWrite(o.printed, o.pc.chunk, e.accepted, c.output);
    }
  }

  lemma InputResultStays(c: Config, i: InputSide, stop: bool, e: InputEvent)
    requires InputChannelOk(c, i) && StepInput(c, i, stop, e).Some?
    ensures i.result.Some? ==> StepInput(c, i, stop, e).value.result == i.result
    ensures i.drained == 1 ==> i.result.Some?
  {}

  lemma OutputEndIsFinal(c: Config, o: OutputSide, e: OutputEvent)
    requires OutputOk(c, o) && StepOutput(c, o, e).Some?
    ensures o.result.None? && o.drained != 1
    ensures o.printed == c.output ==> StepOutput(c, o, e).value.printed == c.output
  {}

  lemma StepKeepsInv(c: Config, s: State, e: Event)
    requires Inv(c, s) && Step(c, s, e).Some?
    ensures Inv(c, Step(c, s, e).value)
  {
    hide StepMain, StepInput, StepOutput, InputChannelOk, InputDataOk, OutputOk;
    match e
    case OfMain(m) => MainKeepsInv(c, s, m);
    case OfInput(i) =>
      InputKeepsInv(c, s.input, s.ctxDone || s.cancelled, i);
      InputResultStays(c, s.input, s.ctxDone || s.cancelled, i);
    case OfOutput(o) =>
      OutputKeepsInv(c, s.output, o);
      OutputEndIsFinal(c, s.output, o);
    case OfWorld(_) =>
  }

  lemma {:induction false} ExecKeepsInv(c: Config, s: State, events: seq<Event>)
    requires Inv(c, s)
    ensures Inv(c, Exec(c, s, events))
    decreases events
  {
    if events != [] {
      var next := Step(c, s, events[0]);
      if next.Some? {
        StepKeepsInv(c, s, events[0]);
      }
      ExecKeepsInv(c, if next.Some? then next.value else s, events[1..]);
    }
  }

  /** Over every schedule: each done channel is received at most once; stopInput only ever
      waits for a message that is still to come; a return with file input leaves no input
      goroutine; what was sent is a prefix of the input; a nil return printed everything. */
  lemma PumpIsSafe(c: Config, events: seq<Event>)
    ensures var s := Exec(c, Init(c), events);
      && s.input.drained <= 1 && s.output.drained <= 1
      && (s.input.isFile ==> c.file && !s.input.isNil && s.input.drained == 0)
      && (s.main.Stopping? ==> s.input.isFile && s.cancelled)
      && (s.main.Returned? && c.file ==> s.input.pc.InputEnded?)
      && s.input.sent <= c.input
      && s.output.printed <= c.output
      && (s.main == Returned(Nil) ==> s.output.printed == c.output && s.output.pc.OutputEnded?)
  {
    ExecKeepsInv(c, Init(c), events);
  }

  /** What a return says: the context error that the caller cancelled, an input error that
      the copy to the session failed, an output error or nil how the session's output ended. */
  lemma ReturnsMeanWhatTheySay(c: Config, events: seq<Event>)
    ensures var s := Exec(c, Init(c), events);
      s.main.Returned? ==> RetOk(c, s, s.main.ret)
  {
    ExecKeepsInv(c, Init(c), events);
  }

  /** Main never sits in its select for nothing: once the caller has cancelled, the output
      has ended or the input has failed, some step takes it out of there. */
  lemma SelectIsLeft(c: Config, s: State)
    requires Inv(c, s) && s.main.Select?
    requires s.ctxDone || s.output.pc.OutputEnded? || (s.input.done.Some? && s.input.done != Some(Copied))
    ensures exists m :: Step(c, s, OfMain(m)).Some? && !Step(c, s, OfMain(m)).value.main.Select?
  {
    var m := if s.ctxDone then TakeContext else if s.output.pc.OutputEnded? then TakeOutput else TakeInput;
    assert Step(c, s, OfMain(m)).Some? && !Step(c, s, OfMain(m)).value.main.Select?;
  }

  /** A window change is never dropped: main goes on only when the size could be read and
      the session took it, and leaves with the error of whichever failed first. */
  lemma ResizeIsHandled(c: Config, s: State, sizeOk: bool, resizeOk: bool)
    requires Inv(c, s) && s.main.Select? && !s.resize.isNil && s.resize.pending
    ensures var t := Step(c, s, OfMain(TakeResize(sizeOk, resizeOk)));
      && t.Some? && !t.value.resize.pending
      && (t.value.main.Select? <==> sizeOk && resizeOk)
      && (!sizeOk ==> t.value.main.ret == SizeError)
      && (sizeOk && !resizeOk ==> t.value.main.ret == ResizeError)
  {
  }

  function PrintRank(c: Config, o: OutputSide): int {
    3 * (|c.output| - o.received)
    + match o.pc case Receive => 2 case Print(_) => 4 case Announce(_) => 1 case OutputEnded => 0
  }

  predicate UsefulOutput(e: OutputEvent) {
    (e.Receives? ==> e.n > 0 || e.end != More) && (e.Prints? ==> e.ok)
  }

  /** The output goroutine ends too: every step that delivers something brings it nearer to
      its end, and until then there always is one. */
  lemma OutputGoesOn(c: Config, s: State, e: OutputEvent)
    requires Inv(c, s)
    ensures PrintRank(c, s.output) >= 0
    ensures UsefulOutput(e) && Step(c, s, OfOutput(e)).Some? ==>
      PrintRank(c, Step(c, s, OfOutput(e)).value.output) < PrintRank(c, s.output)
    ensures !s.output.pc.OutputEnded? ==> exists u :: UsefulOutput(u) && Step(c, s, OfOutput(u)).Some?
  {
    match s.output.pc
    case Receive =>
      var rest := Receives(|c.output| - s.output.received, EndOfInput);
      assert UsefulOutput(rest) && Step(c, s, OfOutput(rest)).Some?;
    case Print(chunk) =>
      assert UsefulOutput(Prints(|chunk|, true)) && Step(c, s, OfOutput(Prints(|chunk|, true))).Some?;
    case Announce(_) => assert UsefulOutput(Announces) && Step(c, s, OfOutput(Announces)).Some?;
    case OutputEnded =>
  }

  /** No byte is swallowed: when the pump has returned, every byte taken from the file has
      been sent, unless the session itself refused a write. */
  lemma NothingSwallowed(c: Config, events: seq<Event>)
    ensures var s := Exec(c, Init(c), events);
      && s.input.consumed <= |c.input|
      && (c.file && s.main.Returned? && !s.input.writeFailed ==> s.input.sent == c.input[..s.input.consumed])
  {
    ExecKeepsInv(c, Init(c), events);
  }

  /** A copy that reports success has sent all there was, on every schedule, unless the poll
      reported the file as invalid. */
  lemma CopiedMeansAllSent(c: Config, events: seq<Event>)
    ensures var s := Exec(c, Init(c), events);
      && (s.input.result == Some(Copied) ==> s.input.invalid || s.input.sent == c.input)
      && (s.input.done.Some? ==> s.input.done == s.input.result)
      && (s.input.drained == 1 ==> s.input.result.Some?)
      && (s.input.isNil ==> s.input.drained == 1)
  {
    ExecKeepsInv(c, Init(c), events);
  }

  /** The outside world does its part: no read, write or poll fails, the file is valid and
      the caller does not cancel. */
  predicate Smooth(e: Event) {
    && e != OfWorld(CallerCancels)
    && (e.OfInput? ==>
          && (e.i.Polls? ==> e.i.result != PollFailed && e.i.result != InvalidFile)
          && (e.i.Reads? ==> e.i.end != ReadFailed)
          && (e.i.Writes? ==> e.i.ok))
  }

  /** The goroutine has met no failure, and has been told of no cancellation. */
  predicate Untroubled(i: InputSide) {
    && !i.invalid && (i.pc.Report? ==> i.pc.result == Copied) && (i.pc.Write? ==> i.pc.end != ReadFailed)
    && (i.result.Some? ==> i.result.value == Copied)
  }

  lemma SmoothStep(c: Config, s: State, e: Event)
    requires Untroubled(s.input) && Smooth(e) && !s.ctxDone && !s.cancelled && Step(c, s, e).Some?
    ensures Untroubled(Step(c, s, e).value.input)
  {
  }

  lemma {:induction false} StopIsFinal(c: Config, s: State, events: seq<Event>)
    requires s.ctxDone || s.cancelled
    ensures Exec(c, s, events).ctxDone || Exec(c, s, events).cancelled
    decreases events
  {
    if events != [] {
      var next := Step(c, s, events[0]);
      StopIsFinal(c, if next.Some? then next.value else s, events[1..]);
    }
  }

  lemma {:induction false} SmoothRun(c: Config, s: State, events: seq<Event>)
    requires Untroubled(s.input) && forall e :: e in events ==> Smooth(e)
    requires !Exec(c, s, events).ctxDone && !Exec(c, s, events).cancelled
    ensures Untroubled(Exec(c, s, events).input)
    decreases events
  {
    if events != [] {
      hide Smooth, Untroubled, Step;
      if s.ctxDone || s.cancelled {
        StopIsFinal(c, s, events);
      }
      var next := Step(c, s, events[0]);
      assert events[0] in events;
      if next.Some? {
        SmoothStep(c, s, events[0]);
      }
      SmoothRun(c, if next.Some? then next.value else s, events[1..]);
    }
  }

  /** A copy that nothing disturbs: as long as the pump is not cancelled and the outside
      world does its part, the goroutine ends only after sending the whole input. */
  lemma UndisturbedCopySendsAll(c: Config, events: seq<Event>)
    requires forall e :: e in events ==> Smooth(e)
    ensures var s := Exec(c, Init(c), events);
      !s.ctxDone && !s.cancelled && s.input.pc.InputEnded? ==>
        s.input.result == Some(Copied) && s.input.sent == c.input
  {
    hide Smooth;
    var s := Exec(c, Init(c), events);
    ExecKeepsInv(c, Init(c), events);
    if !s.ctxDone && !s.cancelled {
      SmoothRun(c, Init(c), events);
    }
  }

  /** A bound on the steps an undisturbed copy still makes, polls that find nothing and
      reads that deliver nothing left out. */
  function CopyRank(c: Config, i: InputSide): int {
    4 * (|c.input| - i.consumed)
    + match i.pc
      case Check => 5
      case Poll => 4
      case Read => 3
      case Write(_, end) => if end == More then 6 else 2
      case Report(_) => 1
      case InputEnded => 0
  }

  /** The step brings the copy on. */
  predicate Useful(e: InputEvent) {
    && (e.Polls? ==> e.result == Ready)
    && (e.Reads? ==> (e.n > 0 && e.end == More) || e.end == EndOfInput)
    && (e.Writes? ==> e.ok)
  }

  /** And it does end: while the pump is not cancelled, every useful step brings the copy
      nearer to its end, and until then there always is one. */
  lemma CopyGoesOn(c: Config, s: State, e: InputEvent)
    requires Inv(c, s) && !s.ctxDone && !s.cancelled
    ensures CopyRank(c, s.input) >= 0
    ensures Useful(e) && Step(c, s, OfInput(e)).Some? ==>
      CopyRank(c, Step(c, s, OfInput(e)).value.input) < CopyRank(c, s.input)
    ensures !s.input.pc.InputEnded? ==> exists u :: Useful(u) && Step(c, s, OfInput(u)).Some?
  {
    match s.input.pc
    case Check => assert Useful(Checks) && Step(c, s, OfInput(Checks)).Some?;
    case Poll => assert Useful(Polls(Ready)) && Step(c, s, OfInput(Polls(Ready))).Some?;
    case Read =>
      var rest := Reads(|c.input| - s.input.consumed, EndOfInput);
      assert Useful(rest) && Step(c, s, OfInput(rest)).Some?;
    case Write(chunk, end) => assert Useful(Writes(|chunk|, true)) && Step(c, s, OfInput(Writes(|chunk|, true))).Some?;
    case Report(_) => assert Useful(Reports) && Step(c, s, OfInput(Reports)).Some?;
    case InputEnded =>
  }

  /** After a return with file input nothing reads stdin any more, whatever still happens. */
  lemma {:induction false} StdinIsReleased(c: Config, s: State, events: seq<Event>)
    requires Inv(c, s) && c.file && s.main.Returned?
    ensures Exec(c, s, events).input == s.input
    decreases events
  {
    if events != [] {
      var next := Step(c, s, events[0]);
      if next.Some? {
        StepKeepsInv(c, s, events[0]);
      }
      StdinIsReleased(c, if next.Some? then next.value else s, events[1..]);
    }
  }

  /** How many steps the input goroutine still makes once the pump is cancelled. */
  function InputRank(pc: InputPc): nat {
    match pc
    case Poll => 5
    case Read => 4
    case Write(_, _) => 3
    case Check => 2
    case Report(_) => 1
    case InputEnded => 0
  }

  /** The steps of the input goroutine that a schedule really makes. */
  function InputSteps(c: Config, s: State, events: seq<Event>): nat
    decreases events
  {
    if events == [] then 0
    else
      var next := Step(c, s, events[0]);
      (if events[0].OfInput? && next.Some? then 1 else 0)
        + InputSteps(c, if next.Some? then next.value else s, events[1..])
  }

  /** While main waits in stopInput, whatever happens: each step of the goroutine uses up
      some of its rank, nothing else touches it, and only the awaited message moves main. */
  lemma WaitingStep(c: Config, s: State, e: Event)
    requires Inv(c, s) && s.main.Stopping? && Step(c, s, e).Some?
    ensures var t := Step(c, s, e).value;
      && (e.OfInput? ==> InputRank(t.input.pc) < InputRank(s.input.pc))
      && (!e.OfInput? ==> t.input.pc == s.input.pc)
      && (e == OfMain(FinishStopping) ==> s.input.pc.InputEnded?)
      && t.main == if e == OfMain(FinishStopping) then Returned(s.main.ret) else s.main
  {
  }

  /** And it never waits in vain: either the goroutine can make a step, or its message
      is there to be received. */
  lemma WaitingGoesOn(c: Config, s: State)
    requires Inv(c, s) && s.main.Stopping?
    ensures s.input.pc.InputEnded? <==> Step(c, s, OfMain(FinishStopping)).Some?
    ensures !s.input.pc.InputEnded? ==> exists e :: Step(c, s, OfInput(e)).Some?
  {
    match s.input.pc
    case Check => assert Step(c, s, OfInput(Checks)).Some?;
    case Poll => assert Step(c, s, OfInput(Polls(NothingYet))).Some?;
    case Read => assert Step(c, s, OfInput(Reads(0, More))).Some?;
    case Write(chunk, end) => assert Step(c, s, OfInput(Writes(|chunk|, true))).Some?;
    case Report(_) => assert Step(c, s, OfInput(Reports)).Some?;
    case InputEnded =>
  }

  /** Waiting in stopInput ends, on every schedule: the input goroutine makes at most five
      more steps, some step is possible as long as main waits, and main returns with
      the value it had chosen and no other. */
  lemma {:induction false} StoppingEnds(c: Config, s: State, events: seq<Event>)
    requires Inv(c, s) && s.main.Stopping?
    ensures var now := Exec(c, s, events);
      && InputSteps(c, s, events) + InputRank(now.input.pc) <= InputRank(s.input.pc) <= 5
      && (now.main == s.main || now.main == Returned(s.main.ret))
      && (now.main == s.main ==>
            if now.input.pc.InputEnded? then Step(c, now, OfMain(FinishStopping)).Some?
            else exists e :: Step(c, now, OfInput(e)).Some?)
    decreases events
  {
    hide Step, Inv;
    if events == [] {
      WaitingGoesOn(c, s);
    } else {
      var next := Step(c, s, events[0]);
      var t := if next.Some? then next.value else s;
      if next.Some? {
        StepKeepsInv(c, s, events[0]);
        WaitingStep(c, s, events[0]);
      }
      if t.main.Stopping? {
        StoppingEnds(c, t, events[1..]);
      } else {
        ReturnedStays(c, t, events[1..]);
      }
    }
  }

  /** A pump that has returned to a file stays returned and its goroutine stays ended. */
  lemma {:induction false} ReturnedStays(c: Config, s: State, events: seq<Event>)
    requires Inv(c, s) && s.main.Returned? && s.input.pc.InputEnded?
    ensures var now := Exec(c, s, events);
      now.main == s.main && now.input.pc.InputEnded? && InputSteps(c, s, events) == 0
    decreases events
  {
    hide Inv;
    if events != [] {
      var next := Step(c, s, events[0]);
      if next.Some? {
        StepKeepsInv(c, s, events[0]);
      }
      ReturnedStays(c, if next.Some? then next.value else s, events[1..]);
    }
  }
}
