/** Who owns the serial port, from src/net/PppUart.cpp: the reader task runs a
    session from its first byte to its last, the loop task builds the interface
    and the reader and takes them apart, the event task reports PPP's dead phase.

    A transition system, one step an access to an atomic, a call into esp_netif
    or a change of something only one task uses. Handles are numbers, 0 is null,
    and a number is never given out twice. */
module PppHandover {
  import opened Bytes
  import A = PppArbiters

  /** readerTask's buffer. */
  const CHUNK_MAX: nat := 256

  /** What esp_log writes through. */
  datatype Handler = Silent | Sink(id: nat)

  datatype Teardown = Idle | Session | Reader

  datatype Stream = Serial | Through

  // The reader task, function by function.

  datatype SvcPc =
    | LoadEnabled | LoadClosing | LoadTearing | LoadBuilt | Allow | ClearDead
    | Decide | LoadForStop | CallStop | ExchangeDead

  datatype FinPc = FinStarted | FinNetif | FinLoad | FinCall | FinClear | FinArbiter | FinOwner | FinMute

  datatype RxPc = RxStarted | RxLoad | RxCall

  datatype TakePc = TakeOwner | TakeMute | TakeNetif | TakeStarted | TakeStore | TakeLoad | TakeCall

  datatype ReaderPc =
    | Absent | Top | Clearing | Unalive | Reading | Body | Feeding
    | Service(svc: SvcPc) | Finish(fin: FinPc) | Receive(rx: RxPc) | Take(take: TakePc)

  // The loop task, function by function.

  datatype BuildPc =
    | BuildNew | BuildStarted | BuildDead | BuildClosing | BuildPublish
    | BuildStop | BuildAlive | BuildTask | UndoAlive | UndoNetif | UndoDestroy | BuildConsole

  datatype TearPc =
    | TearSwap | TearStop | TearDestroy | TearArbiter | TearOwner | TearMute
    | TearStarted | TearStopping | TearDead | TearConsole | TearFlag

  datatype LoopPc =
    | LoopOut | Polling | ShuttingDown | StopFlag | StepSession | StepAsk | StepReader | TearLoad
    | Build(build: BuildPc) | Tear(tear: TearPc)

  /** Who the arbiter and the other tasks take the port to be, whether
      `transmit` may run, whether the reader has asked for the end, and whether
      esp_netif holds the interface started. */
  datatype Port = Port(arbiter: bool, owner: bool, started: bool, stopping: bool, esp: bool)

  /** What esp_log writes through, what was put aside for it, and the other two
      sources of log lines. `home` is what it wrote through in the beginning. */
  datatype Log = Log(vprintf: Handler, saved: Option<Handler>, debug: bool, rnsMuted: bool, home: Handler)

  datatype Flags = Flags(enabled: bool, closing: bool, tearingDown: bool, alive: bool, stop: bool, dead: bool)

  /** `sNetif`, and the interfaces that have been made and not destroyed. */
  datatype Heap = Heap(sNetif: nat, netifs: set<nat>, nextId: nat)

  /** The reader's: the bytes of the chunk to come, the switch as `service` found
      it, a handle loaded for a call, the arbiter's permission and the run of bytes
      the arbiter holds back. */
  datatype ReaderVars = ReaderVars(rest: seq<byte>, wanted: bool, netif: nat, allow: bool, run: seq<byte>)

  /** The loop task's own, with its locals: the switch, a handle, whether the
      session was open. */
  datatype LoopVars = LoopVars(
    teardown: Teardown, failed: bool, console: Stream, polled: bool, made: nat, wasOpen: bool)

  /** History: whether the switch had already gone off when the reader's pass
      began, and how often PPP has taken the port since it went off. */
  datatype Past = Past(late: bool, takeovers: nat)

  datatype State = State(
    port: Port, log: Log, flags: Flags, heap: Heap,
    reader: ReaderPc, rv: ReaderVars, loop: LoopPc, lv: LoopVars, past: Past)

  predicate Initial(s: State) {
    && s.heap.sNetif == 0 && !s.port.owner && !s.flags.enabled && !s.flags.closing && !s.flags.tearingDown
    && !s.port.started && !s.flags.alive && !s.flags.stop && !s.flags.dead
    && !s.port.arbiter && !s.rv.allow && s.rv.run == [] && !s.port.stopping
    && s.log.vprintf == s.log.home != Silent && s.log.saved == None && s.log.debug && !s.log.rnsMuted
    && s.lv.teardown == Idle && !s.lv.failed && s.lv.console == Serial
    && s.reader == Absent && s.loop == LoopOut
    && s.heap.netifs == {} && !s.port.esp && s.heap.nextId == 1 && !s.past.late && s.past.takeovers == 0
  }

  /** Where a task is says what it does next; `data` and `yes` are what the world
      answers: the chunk read, memory, a timer. */
  datatype Step = Read(data: seq<byte>, yes: bool) | Poll(enabled: bool) | Shutdown | Loop(yes: bool) | DeadPhase

  predicate Enabled(s: State, step: Step) {
    match step
    case Read(data, _) => s.reader != Absent && (s.reader == Reading ==> |data| <= CHUNK_MAX)
    case Poll(_) => s.loop == LoopOut
    case Shutdown => s.loop == LoopOut
    case Loop(_) => s.loop != LoopOut
    case DeadPhase => true
  }

  function Mute(s: State): State {
    s.(log := s.log.(saved := Some(s.log.vprintf), vprintf := Silent, debug := false, rnsMuted := true))
  }

  function Unmute(s: State): State {
    s.(log := s.log.(
      vprintf := if s.log.saved.Some? then s.log.saved.value else s.log.vprintf, debug := true, rnsMuted := false))
  }

  function Refusing(s: State): State { s.(rv := s.rv.(wanted := false), reader := Service(Allow)) }

  /** `service`: what the switch allows, and when a session must end. */
  function DoService(s: State, pc: SvcPc, yes: bool): State {
    match pc
    case LoadEnabled => if s.flags.enabled then s.(reader := Service(LoadClosing)) else Refusing(s)
    case LoadClosing => if s.flags.closing then Refusing(s) else s.(reader := Service(LoadTearing))
    case LoadTearing => if s.flags.tearingDown then Refusing(s) else s.(reader := Service(LoadBuilt))
    case LoadBuilt => s.(rv := s.rv.(wanted := true, netif := s.heap.sNetif), reader := Service(Allow))
    case Allow =>
      s.(rv := s.rv.(allow := s.rv.wanted && s.rv.netif != 0),
         reader := Service(if s.port.arbiter then Decide else ClearDead))
    case ClearDead => s.(flags := s.flags.(dead := false), reader := Body)
    case Decide =>
      if (!s.rv.wanted || yes) && !s.port.stopping then
        s.(port := s.port.(stopping := true), reader := Service(LoadForStop))
      else s.(reader := Service(ExchangeDead))
    case LoadForStop => s.(rv := s.rv.(netif := s.heap.sNetif), reader := Service(CallStop))
    case CallStop => s.(port := s.port.(esp := false), reader := Service(ExchangeDead))
    case ExchangeDead =>
      s.(flags := s.flags.(dead := false),
         reader := if s.flags.dead || (s.port.stopping && yes) then Finish(FinStarted) else Body)
  }

  function DoFinish(s: State, pc: FinPc): State {
    match pc
    case FinStarted => s.(reader := Finish(if s.port.started && !s.port.stopping then FinNetif else FinClear))
    case FinNetif => s.(reader := Finish(if s.heap.sNetif != 0 then FinLoad else FinClear))
    case FinLoad => s.(rv := s.rv.(netif := s.heap.sNetif), reader := Finish(FinCall))
    case FinCall => s.(port := s.port.(esp := false), reader := Finish(FinClear))
    case FinClear => s.(port := s.port.(started := false), reader := Finish(FinArbiter))
    case FinArbiter => PppDown(s.(port := s.port.(stopping := false))).(reader := Finish(FinOwner))
    case FinOwner => s.(port := s.port.(owner := false), reader := Finish(FinMute))
    case FinMute => Unmute(s).(reader := Body)
  }

  /** Bytes for PPP, if it is started; then what is left of the chunk. */
  function DoReceive(s: State, pc: RxPc): State {
    match pc
    case RxStarted => if s.port.started then s.(reader := Receive(RxLoad)) else Received(s)
    case RxLoad => s.(rv := s.rv.(netif := s.heap.sNetif), reader := Receive(RxCall))
    case RxCall => Received(s)
  }

  function Received(s: State): State {
    s.(rv := s.rv.(rest := []), reader := if s.rv.rest != [] then Receive(RxStarted) else Top)
  }

  function DoTake(s: State, pc: TakePc): State {
    match pc
    case TakeOwner => s.(port := s.port.(owner := true), reader := Take(TakeMute))
    case TakeMute => Mute(s).(reader := Take(TakeNetif))
    case TakeNetif => s.(reader := if s.heap.sNetif != 0 then Take(TakeStarted) else Receive(RxStarted))
    case TakeStarted => s.(reader := if s.port.started then Receive(RxStarted) else Take(TakeStore))
    case TakeStore => s.(port := s.port.(started := true), reader := Take(TakeLoad))
    case TakeLoad => s.(rv := s.rv.(netif := s.heap.sNetif), reader := Take(TakeCall))
    case TakeCall => s.(port := s.port.(esp := true), reader := Receive(RxStarted))
  }

  /** What the arbiter makes of a byte after the run it holds. */
  function Fed(run: seq<byte>, c: byte, allow: bool): A.Route {
    A.Verdict(A.ScanOf(run + [c]), run + [c], allow, run != [])
  }

  function RunAfter(run: seq<byte>, c: byte, allow: bool): seq<byte> {
    if Fed(run, c, allow).sink == A.Hold then run + [c] else []
  }

  /** One byte to the arbiter. */
  function DoFeed(s: State): State {
    if s.rv.rest == [] then s.(reader := Top)
    else
      var c := s.rv.rest[0];
      var rv := s.rv.(rest := s.rv.rest[1..], run := RunAfter(s.rv.run, c, s.rv.allow));
      if Fed(s.rv.run, c, s.rv.allow).tookOver then
        s.(rv := rv, port := s.port.(arbiter := true),
           past := s.past.(takeovers := s.past.takeovers + if s.flags.tearingDown then 1 else 0),
           reader := Take(TakeOwner))
      else s.(rv := rv)
  }

  /** `Arbiter::pppDown`, of a port that is PPP's. */
  function PppDown(s: State): State {
    s.(port := s.port.(arbiter := false), rv := s.rv.(run := if s.port.arbiter then [] else s.rv.run))
  }

  function DoReader(s: State, data: seq<byte>, yes: bool): State {
    match s.reader
    case Absent => s
    case Top =>
      if s.flags.stop then s.(reader := Clearing)
      else s.(reader := Reading, past := s.past.(late := s.flags.tearingDown))
    case Clearing => s.(flags := s.flags.(stop := false), reader := Unalive)
    case Unalive => s.(flags := s.flags.(alive := false), reader := Absent)
    case Reading => s.(rv := s.rv.(rest := data), reader := Service(LoadEnabled))
    case Service(pc) => DoService(s, pc, yes)
    case Finish(pc) => DoFinish(s, pc)
    case Body =>
      if s.rv.rest == [] then s.(rv := s.rv.(run := if yes then [] else s.rv.run), reader := Top)
      else if s.port.arbiter then s.(rv := s.rv.(rest := []), reader := Receive(RxStarted))
      else s.(reader := Feeding)
    case Feeding => DoFeed(s)
    case Receive(pc) => DoReceive(s, pc)
    case Take(pc) => DoTake(s, pc)
  }

  /** `startPpp`; a reader that cannot be started leaves nothing behind. */
  function DoBuild(s: State, pc: BuildPc, yes: bool): State {
    match pc
    case BuildNew =>
      if yes then
        s.(heap := s.heap.(netifs := s.heap.netifs + {s.heap.nextId}, nextId := s.heap.nextId + 1),
           port := s.port.(esp := false), lv := s.lv.(made := s.heap.nextId), loop := Build(BuildStarted))
      else s.(lv := s.lv.(failed := true), loop := LoopOut)
    case BuildStarted => s.(port := s.port.(started := false), loop := Build(BuildDead))
    case BuildDead => s.(flags := s.flags.(dead := false), loop := Build(BuildClosing))
    case BuildClosing => s.(flags := s.flags.(closing := false), loop := Build(BuildPublish))
    case BuildPublish => s.(heap := s.heap.(sNetif := s.lv.made), loop := Build(BuildStop))
    case BuildStop => s.(flags := s.flags.(stop := false), loop := Build(BuildAlive))
    case BuildAlive => s.(flags := s.flags.(alive := true), loop := Build(BuildTask))
    case BuildTask =>
      if yes then s.(reader := Top, past := s.past.(late := false), loop := Build(BuildConsole))
      else s.(loop := Build(UndoAlive))
    case UndoAlive => s.(flags := s.flags.(alive := false), loop := Build(UndoNetif))
    case UndoNetif => s.(heap := s.heap.(sNetif := 0), loop := Build(UndoDestroy))
    case UndoDestroy =>
      s.(heap := s.heap.(netifs := s.heap.netifs - {s.lv.made}), lv := s.lv.(failed := true), loop := LoopOut)
    case BuildConsole => s.(lv := s.lv.(console := Through, failed := false), loop := LoopOut)
  }

  /** The end of `stepStopPpp`, once the reader is seen to be gone. */
  function DoTear(s: State, pc: TearPc): State {
    match pc
    case TearSwap =>
      s.(heap := s.heap.(sNetif := 0), lv := s.lv.(made := s.heap.sNetif),
         loop := if s.heap.sNetif != 0 then Tear(if s.lv.wasOpen then TearStop else TearDestroy)
                 else Tear(if s.lv.wasOpen then TearArbiter else TearStarted))
    case TearStop => s.(port := s.port.(esp := false), loop := Tear(TearDestroy))
    case TearDestroy =>
      s.(heap := s.heap.(netifs := s.heap.netifs - {s.lv.made}),
         loop := Tear(if s.lv.wasOpen then TearArbiter else TearStarted))
    case TearArbiter => PppDown(s).(loop := Tear(TearOwner))
    case TearOwner => s.(port := s.port.(owner := false), loop := Tear(TearMute))
    case TearMute => Unmute(s).(loop := Tear(TearStarted))
    case TearStarted => s.(port := s.port.(started := false), loop := Tear(TearStopping))
    case TearStopping => s.(port := s.port.(stopping := false), loop := Tear(TearDead))
    case TearDead => s.(flags := s.flags.(dead := false), loop := Tear(TearConsole))
    case TearConsole => s.(lv := s.lv.(console := Serial), loop := Tear(TearFlag))
    case TearFlag => s.(flags := s.flags.(tearingDown := false), lv := s.lv.(teardown := Idle), loop := LoopOut)
  }

  /** `poll` once the switch is stored: the latch, then one of the branches. */
  function Branch(s: State): State {
    var busy := s.lv.teardown != Idle;
    var built := s.heap.sNetif != 0;
    var failed := if !s.lv.polled && !built && !busy then false else s.lv.failed;
    var next :=
      if busy then (if s.lv.teardown == Session then StepSession else StepReader)
      else if s.lv.polled && !built && !failed then Build(BuildNew)
      else if !s.lv.polled && built then StopFlag
      else LoopOut;
    s.(lv := s.lv.(failed := failed), loop := next)
  }

  function DoLoop(s: State, yes: bool): State {
    match s.loop
    case LoopOut => s
    case Polling => Branch(s)
    case ShuttingDown => s.(flags := s.flags.(closing := true), loop := LoopOut)
    case StopFlag =>
      s.(flags := s.flags.(tearingDown := true), past := s.past.(takeovers := 0), lv := s.lv.(teardown := Session),
         loop := StepSession)
    case StepSession => s.(loop := if !s.port.owner || yes then StepAsk else LoopOut)
    case StepAsk => s.(flags := s.flags.(stop := true), lv := s.lv.(teardown := Reader), loop := LoopOut)
    case StepReader => s.(loop := if s.flags.alive then LoopOut else TearLoad)
    case TearLoad => s.(lv := s.lv.(wasOpen := s.port.started), loop := Tear(TearSwap))
    case Build(pc) => DoBuild(s, pc, yes)
    case Tear(pc) => DoTear(s, pc)
  }

  function Do(s: State, step: Step): State {
    match step
    case Read(data, yes) => DoReader(s, data, yes)
    case Poll(enabled) => s.(flags := s.flags.(enabled := enabled), lv := s.lv.(polled := enabled), loop := Polling)
    case Shutdown => if s.port.owner then s.(loop := ShuttingDown) else s
    case Loop(yes) => DoLoop(s, yes)
    case DeadPhase => s.(flags := s.flags.(dead := true))
  }

  predicate ReaderCalls(pc: ReaderPc) {
    pc == Service(CallStop) || pc == Finish(FinCall) || pc == Receive(RxCall) || pc == Take(TakeCall)
  }

  predicate LoopCalls(pc: LoopPc) {
    pc == Tear(TearStop) || pc == Tear(TearDestroy) || pc == Build(UndoDestroy)
  }

  /** The interfaces a step calls esp_netif on. */
  function Called(s: State, step: Step): set<nat> {
    if step.Read? && ReaderCalls(s.reader) then {s.rv.netif}
    else if step.Loop? && LoopCalls(s.loop) then {s.lv.made}
    else {}
  }

  // ---------------------------------------------------------------------
  // The invariant
  // ---------------------------------------------------------------------

  predicate Quiet(s: State) {
    s.log.vprintf == Silent != s.log.home && s.log.saved == Some(s.log.home) && !s.log.debug && s.log.rnsMuted
  }

  predicate Heard(s: State) { s.log.vprintf == s.log.home != Silent && s.log.debug && !s.log.rnsMuted }

  /** Who the arbiter, the other tasks, the log and `transmit` take the port to be. */
  predicate Shape(s: State, arbiter: bool, owner: bool, muted: bool, started: bool) {
    && s.port.arbiter == arbiter && s.port.owner == owner && s.port.started == started
    && (if muted then Quiet(s) else Heard(s))
  }

  predicate Closed(s: State) { Shape(s, false, false, false, false) && !s.port.esp && !s.port.stopping }

  predicate Open(s: State) { Shape(s, true, true, true, true) && s.port.esp == !s.port.stopping }

  predicate Between(s: State) { Closed(s) || Open(s) }

  // How far the session has been opened or closed, at each place.

  predicate InService(s: State, pc: SvcPc) {
    match pc
    case ClearDead => Closed(s)
    case Decide => Open(s)
    case LoadForStop => Shape(s, true, true, true, true) && s.port.esp && s.port.stopping
    case CallStop => Shape(s, true, true, true, true) && s.port.esp && s.port.stopping
    case ExchangeDead => Open(s)
    case _ => Between(s)
  }

  predicate InFinish(s: State, pc: FinPc) {
    match pc
    case FinStarted => Open(s)
    case FinClear => Shape(s, true, true, true, true) && !s.port.esp
    case FinArbiter => Shape(s, true, true, true, false) && !s.port.esp
    case FinOwner => Shape(s, false, true, true, false) && !s.port.esp && !s.port.stopping
    case FinMute => Shape(s, false, false, true, false) && !s.port.esp && !s.port.stopping
    case _ => Open(s) && !s.port.stopping
  }

  predicate InTake(s: State, pc: TakePc) {
    && !s.port.esp && !s.port.stopping
    && match pc
       case TakeOwner => Shape(s, true, false, false, false)
       case TakeMute => Shape(s, true, true, false, false)
       case TakeLoad => Shape(s, true, true, true, true)
       case TakeCall => Shape(s, true, true, true, true)
       case _ => Shape(s, true, true, true, false)
  }

  predicate InTear(s: State, pc: TearPc) {
    match pc
    case TearSwap => Between(s) && s.lv.wasOpen == s.port.started
    case TearStop => Open(s) && s.lv.wasOpen
    case TearDestroy => if s.lv.wasOpen then Shape(s, true, true, true, true) && !s.port.esp else Closed(s)
    case TearArbiter => Shape(s, true, true, true, true) && !s.port.esp
    case TearOwner => Shape(s, false, true, true, true) && !s.port.esp
    case TearMute => Shape(s, false, false, true, true) && !s.port.esp
    case TearStarted => Shape(s, false, false, false, s.port.started) && !s.port.esp
    case TearStopping => Shape(s, false, false, false, false) && !s.port.esp
    case _ => Closed(s)
  }

  predicate Sessions(s: State) {
    match s.reader
    case Absent =>
      if s.loop.Tear? then InTear(s, s.loop.tear)
      else Between(s) && (s.lv.teardown == Idle ==> Closed(s))
    case Service(pc) => InService(s, pc)
    case Finish(pc) => InFinish(s, pc)
    case Receive(_) => Open(s)
    case Take(pc) => InTake(s, pc)
    case Feeding => Closed(s)
    case _ => Between(s)
  }

  /** Made and not yet published, or taken back and not yet destroyed. */
  predicate InHand(loop: LoopPc) {
    match loop
    case Build(pc) =>
      pc == BuildStarted || pc == BuildDead || pc == BuildClosing || pc == BuildPublish || pc == UndoDestroy
    case Tear(pc) => pc == TearStop || pc == TearDestroy
    case _ => false
  }

  /** Published by a build that can still fail. */
  predicate Launching(loop: LoopPc) {
    loop.Build? && (loop.build == BuildStop || loop.build == BuildAlive || loop.build == BuildTask
                    || loop.build == UndoAlive || loop.build == UndoNetif)
  }

  /** The one interface there is, and 0 when there is none. */
  function TheNetif(s: State): nat {
    if s.heap.sNetif != 0 then s.heap.sNetif else if InHand(s.loop) then s.lv.made else 0
  }

  predicate Owned(s: State) {
    && s.heap.nextId > 0 && TheNetif(s) < s.heap.nextId
    && s.heap.netifs == (if TheNetif(s) == 0 then {} else {TheNetif(s)})
    && (InHand(s.loop) ==> s.heap.sNetif == 0 && s.lv.made != 0)
    && (Launching(s.loop) ==> s.heap.sNetif == s.lv.made != 0)
    && (ReaderCalls(s.reader) ==> s.rv.netif == s.heap.sNetif)
  }

  predicate Leaving(reader: ReaderPc) { reader == Clearing || reader == Unalive }

  predicate Outside(loop: LoopPc) { loop == LoopOut || loop == Polling || loop == ShuttingDown }

  /** What the loop task has built at each place of its own. */
  predicate Built(s: State) {
    if Outside(s.loop) || s.loop == StopFlag || s.loop == Build(BuildConsole) then
      && (s.heap.sNetif == 0 <==> s.reader == Absent) && (s.flags.alive <==> s.reader != Absent)
      && (s.lv.console == Serial <==> s.heap.sNetif == 0 || s.loop == Build(BuildConsole))
      && (s.loop == StopFlag || s.loop == Build(BuildConsole) ==> s.heap.sNetif != 0)
    else
      && s.reader == Absent && s.lv.console == Serial && s.loop.Build?
      && (s.flags.alive <==> s.loop.build == BuildTask || s.loop.build == UndoAlive)
      && (s.heap.sNetif != 0 <==> Launching(s.loop))
  }

  /** What it has taken apart. */
  predicate TakenApart(s: State) {
    && (s.flags.alive <==> s.reader != Absent)
    && (s.flags.stop <==> s.reader != Absent && s.reader != Unalive)
    && (s.lv.console == Serial <==> s.loop == Tear(TearFlag))
    && (Outside(s.loop) || s.loop == StepReader || s.loop == TearLoad || s.loop.Tear?)
    && (s.loop.Tear? && s.loop.tear != TearSwap <==> s.heap.sNetif == 0)
    && (s.loop == TearLoad || s.loop.Tear? ==> s.reader == Absent)
  }

  predicate Phased(s: State) {
    match s.lv.teardown
    case Idle => !s.flags.tearingDown && !s.flags.stop && !Leaving(s.reader) && Built(s)
    case Session =>
      && s.flags.tearingDown && !s.flags.stop && !Leaving(s.reader) && s.reader != Absent
      && s.flags.alive && s.heap.sNetif != 0
      && s.lv.console == Through && (Outside(s.loop) || s.loop == StepSession || s.loop == StepAsk)
    case Reader => s.flags.tearingDown && TakenApart(s)
  }

  /** Past `allowPpp` and not yet past the chunk. */
  predicate Settled(reader: ReaderPc) {
    match reader
    case Service(pc) => pc == ClearDead || pc == Decide || pc == LoadForStop || pc == CallStop || pc == ExchangeDead
    case Finish(_) => true
    case Body => true
    case Feeding => true
    case _ => false
  }

  /** A pass that began with the switch off allows no session; one that began
      before can still start one, and is the last that can. */
  predicate Latest(s: State) {
    && (s.past.late && s.reader != Absent ==> s.flags.tearingDown)
    && (s.past.late ==> s.reader != Service(LoadBuilt))
    && (s.past.late && s.reader == Service(Allow) ==> !s.rv.wanted)
    && (s.past.late && Settled(s.reader) ==> !s.rv.allow)
    && (s.flags.tearingDown && s.past.takeovers > 0 ==>
          && s.past.takeovers == 1
          && (s.past.late || s.reader.Take? || s.reader.Receive? || s.reader == Top || Leaving(s.reader)
              || s.reader == Absent))
  }

  /** What the arbiter holds could still become a request, and it holds nothing
      once PPP has the port. */
  ghost predicate Waits(s: State) {
    && (s.port.arbiter ==> s.rv.run == [])
    && (s.rv.run != [] ==> A.Candidate(s.rv.run) && |s.rv.run| < A.HOLD_MAX)
  }

  ghost predicate Inv(s: State) { Sessions(s) && Owned(s) && Phased(s) && Latest(s) && Waits(s) }

  lemma InvInit(s: State)
    requires Initial(s)
    ensures Inv(s)
  {
  }

  // ---------------------------------------------------------------------
  // Each task keeps each part
  // ---------------------------------------------------------------------

  lemma ServiceSessions(s: State, yes: bool)
    requires Sessions(s) && s.reader.Service?
    ensures Sessions(DoService(s, s.reader.svc, yes))
  {
    hide InTake, InTear;
  }

  lemma FinishSessions(s: State)
    requires Sessions(s) && Phased(s) && s.reader.Finish?
    ensures Sessions(DoFinish(s, s.reader.fin))
  {
    hide InTake, InTear, InService;
    ReaderHasNetif(s);
    hide Phased;
  }

  lemma TakeSessions(s: State)
    requires Sessions(s) && Phased(s) && s.reader.Take?
    ensures Sessions(DoTake(s, s.reader.take))
  {
    hide InFinish, InTear, InService;
    ReaderHasNetif(s);
    hide Phased;
  }

  lemma PassSessions(s: State, data: seq<byte>, yes: bool)
    requires Sessions(s) && Phased(s) && !s.reader.Service? && !s.reader.Finish? && !s.reader.Take?
    ensures Sessions(DoReader(s, data, yes))
  {
    hide InFinish, InTear, Built;
  }

  /** While there is a reader there is an interface, and it is on offer. */
  lemma ReaderHasNetif(s: State)
    requires Phased(s) && s.reader != Absent
    ensures s.heap.sNetif != 0 && s.flags.alive && !s.loop.Tear?
    ensures s.loop.Build? ==> s.loop == Build(BuildConsole)
  {
  }

  lemma ReaderSessions(s: State, data: seq<byte>, yes: bool)
    requires Sessions(s) && Phased(s) && s.reader != Absent
    ensures Sessions(DoReader(s, data, yes))
  {
    hide Sessions, Phased, DoService, DoFinish, DoTake, DoFeed, DoReceive;
    if s.reader.Service? { ServiceSessions(s, yes); }
    else if s.reader.Finish? { FinishSessions(s); }
    else if s.reader.Take? { TakeSessions(s); }
    else { PassSessions(s, data, yes); }
  }

  /** A reader about to call esp_netif has just loaded the handle. */
  predicate Loaded(s: State, t: State) {
    && t.heap == s.heap && t.loop == s.loop && t.lv == s.lv
    && (ReaderCalls(t.reader) ==> t.rv.netif == t.heap.sNetif)
  }

  lemma ServiceLoads(s: State, pc: SvcPc, yes: bool)
    ensures Loaded(s, DoService(s, pc, yes))
  {
  }

  lemma FinishLoads(s: State, pc: FinPc)
    ensures Loaded(s, DoFinish(s, pc))
  {
  }

  lemma TakeLoads(s: State, pc: TakePc)
    ensures Loaded(s, DoTake(s, pc))
  {
  }

  lemma LoadsThenCalls(s: State, data: seq<byte>, yes: bool)
    requires s.reader != Absent
    ensures Loaded(s, DoReader(s, data, yes))
  {
    hide Fed, RunAfter, DoService, DoFinish, DoTake;
    match s.reader
    case Service(pc) => ServiceLoads(s, pc, yes);
    case Finish(pc) => FinishLoads(s, pc);
    case Take(pc) => TakeLoads(s, pc);
    case _ =>
  }

  lemma ReaderOwned(s: State, data: seq<byte>, yes: bool)
    requires Owned(s) && s.reader != Absent
    ensures Owned(DoReader(s, data, yes))
  {
    hide InHand, Launching, DoReader;
    LoadsThenCalls(s, data, yes);
  }

  /** A pass under way is not the loop task's concern. */
  predicate Aside(s: State, t: State) {
    && t.heap == s.heap && t.loop == s.loop && t.lv == s.lv
    && t.flags.(dead := s.flags.dead) == s.flags && t.reader != Absent && !Leaving(t.reader)
  }

  lemma ServiceAside(s: State, pc: SvcPc, yes: bool)
    ensures Aside(s, DoService(s, pc, yes))
  {
  }

  lemma FinishAside(s: State, pc: FinPc)
    ensures Aside(s, DoFinish(s, pc))
  {
  }

  lemma TakeAside(s: State, pc: TakePc)
    ensures Aside(s, DoTake(s, pc))
  {
  }

  lemma InsideReader(s: State, data: seq<byte>, yes: bool)
    requires !(s.reader == Top || Leaving(s.reader) || s.reader == Absent)
    ensures Aside(s, DoReader(s, data, yes))
  {
    hide DoService, DoFinish, DoTake;
    match s.reader
    case Service(pc) => ServiceAside(s, pc, yes);
    case Finish(pc) => FinishAside(s, pc);
    case Take(pc) => TakeAside(s, pc);
    case _ =>
  }

  lemma ReaderPhased(s: State, data: seq<byte>, yes: bool)
    requires Phased(s) && s.reader != Absent
    ensures Phased(DoReader(s, data, yes))
  {
    if s.reader == Top || Leaving(s.reader) {
      hide Built;
    } else {
      hide DoReader;
      InsideReader(s, data, yes);
    }
  }

  lemma ServiceLatest(s: State, yes: bool)
    requires Latest(s) && s.reader.Service?
    ensures Latest(DoService(s, s.reader.svc, yes))
  {
    var svc := s.reader.svc;
    if svc == Decide || svc == LoadForStop || svc == CallStop || svc == ExchangeDead {
      hide Latest, DoService;
      StoppingLatest(s, yes);
    }
  }

  lemma StoppingLatest(s: State, yes: bool)
    requires Latest(s) && s.reader.Service? && Settled(s.reader) && s.reader.svc != ClearDead
    ensures Latest(DoService(s, s.reader.svc, yes))
  {
  }

  lemma FinishLatest(s: State)
    requires Latest(s) && s.reader.Finish?
    ensures Latest(DoFinish(s, s.reader.fin))
  {
  }

  lemma TakeLatest(s: State)
    requires Latest(s) && s.reader.Take?
    ensures Latest(DoTake(s, s.reader.take))
  {
  }

  lemma ReaderLatest(s: State, data: seq<byte>, yes: bool)
    requires Latest(s) && s.reader != Absent
    ensures Latest(DoReader(s, data, yes))
  {
    hide DoService, DoFinish, DoTake;
    if s.reader.Service? { ServiceLatest(s, yes); }
    else if s.reader.Finish? { FinishLatest(s); }
    else if s.reader.Take? { TakeLatest(s); }
  }

  /** The arbiter's verdict is the language's. */
  lemma FedIsDecided(run: seq<byte>, c: byte, allow: bool)
    ensures A.Decides(run + [c], allow, run != [], Fed(run, c, allow))
    ensures Fed(run, c, allow).tookOver ==> RunAfter(run, c, allow) == []
    ensures !allow ==> !Fed(run, c, allow).tookOver
    ensures RunAfter(run, c, allow) != [] ==>
      A.Candidate(RunAfter(run, c, allow)) && |RunAfter(run, c, allow)| < A.HOLD_MAX
  {
    hide A.Verdict, A.ScanOf, A.Candidate, A.Takeover;
    A.VerdictIsLanguage(run + [c], allow, run != []);
  }

  lemma PassWaits(s: State, data: seq<byte>, yes: bool)
    requires Waits(s) && !s.reader.Service? && !s.reader.Finish? && !s.reader.Take?
    requires s.reader == Feeding ==> !s.port.arbiter
    ensures Waits(DoReader(s, data, yes))
  {
    hide A.Candidate, Fed, RunAfter;
    if s.reader == Feeding && s.rv.rest != [] { FedIsDecided(s.rv.run, s.rv.rest[0], s.rv.allow); }
  }

  lemma ReaderWaits(s: State, data: seq<byte>, yes: bool)
    requires Waits(s) && Sessions(s) && s.reader != Absent
    ensures Waits(DoReader(s, data, yes))
  {
    if s.reader.Service? || s.reader.Finish? || s.reader.Take? {
      hide A.Candidate, Sessions;
    } else {
      hide DoReader, Waits;
      PassWaits(s, data, yes);
    }
  }

  lemma ReaderKeeps(s: State, data: seq<byte>, yes: bool)
    requires Inv(s) && s.reader != Absent
    ensures Inv(DoReader(s, data, yes))
  {
    hide Sessions, Owned, Phased, Latest, Waits, DoReader;
    ReaderSessions(s, data, yes);
    ReaderWaits(s, data, yes);
    ReaderOwned(s, data, yes);
    ReaderPhased(s, data, yes);
    ReaderLatest(s, data, yes);
  }

  /** With the reader there, what the loop task does leaves the session alone. */
  lemma SameSessions(s: State, t: State)
    requires Sessions(s) && s.reader != Absent
    requires t.port == s.port && t.log == s.log && t.reader == s.reader
    ensures Sessions(t)
  {
  }

  lemma BuildSessions(s: State, yes: bool)
    requires Sessions(s) && Phased(s) && s.loop.Build?
    ensures Sessions(DoBuild(s, s.loop.build, yes))
  {
    if s.reader != Absent {
      hide Sessions;
      ReaderHasNetif(s);
      SameSessions(s, DoBuild(s, s.loop.build, yes));
    } else {
      hide Sessions, Phased, DoBuild;
      BuildAlone(s, yes);
    }
  }

  /** With no reader, and nothing being taken apart, the session is closed. */
  lemma BuildAlone(s: State, yes: bool)
    requires Sessions(s) && Phased(s) && s.loop.Build? && s.reader == Absent
    ensures Sessions(DoBuild(s, s.loop.build, yes))
  {
    hide InFinish, InTear, InService, InTake, Phased, Built;
    BuildsWhenIdle(s);
  }

  lemma TearsWithoutReader(s: State)
    requires Phased(s) && s.loop.Tear?
    ensures s.lv.teardown == Reader && s.reader == Absent
    ensures s.loop.tear != TearSwap <==> s.heap.sNetif == 0
  {
  }

  lemma TearSessions(s: State)
    requires Sessions(s) && Phased(s) && s.loop.Tear?
    ensures Sessions(DoTear(s, s.loop.tear))
  {
    hide InFinish, InService, InTake, Phased;
    TearsWithoutReader(s);
  }

  lemma PollSessions(s: State, yes: bool)
    requires Sessions(s) && Phased(s) && !s.loop.Build? && !s.loop.Tear?
    ensures Sessions(DoLoop(s, yes))
  {
    if s.reader != Absent {
      hide Sessions;
      SameSessions(s, DoLoop(s, yes));
    } else {
      hide InFinish, InService, InTake;
    }
  }

  lemma LoopSessions(s: State, yes: bool)
    requires Sessions(s) && Phased(s)
    ensures Sessions(DoLoop(s, yes))
  {
    hide Sessions, Phased, DoBuild, DoTear, Branch;
    if s.loop.Build? { BuildSessions(s, yes); }
    else if s.loop.Tear? { TearSessions(s); }
    else { PollSessions(s, yes); }
  }

  lemma BuildOwned(s: State, yes: bool)
    requires Owned(s) && Phased(s) && s.loop.Build?
    ensures Owned(DoBuild(s, s.loop.build, yes))
  {
    hide Phased;
    BuildsWhenIdle(s);
  }

  lemma TearOwned(s: State)
    requires Owned(s) && Phased(s) && s.loop.Tear?
    ensures Owned(DoTear(s, s.loop.tear))
  {
    hide Phased;
    TearsWithoutReader(s);
  }

  lemma LoopOwned(s: State, yes: bool)
    requires Owned(s) && Phased(s)
    ensures Owned(DoLoop(s, yes))
  {
    hide Phased, DoBuild, DoTear;
    if s.loop.Build? { BuildOwned(s, yes); }
    else if s.loop.Tear? { TearOwned(s); }
  }

  lemma BuildsWhenIdle(s: State)
    requires Phased(s) && s.loop.Build?
    ensures s.lv.teardown == Idle && !s.flags.tearingDown && !s.flags.stop && !Leaving(s.reader) && Built(s)
  {
    hide Built;
  }

  lemma BuildSparesTheRest(s: State, pc: BuildPc, yes: bool)
    ensures var t := DoBuild(s, pc, yes);
      && t.lv.teardown == s.lv.teardown && t.flags.tearingDown == s.flags.tearingDown
      && (t.flags.stop ==> s.flags.stop) && (t.reader == s.reader || t.reader == Top)
  {
  }

  lemma BuildBuilds(s: State, yes: bool)
    requires Built(s) && Owned(s) && s.loop.Build?
    ensures Built(DoBuild(s, s.loop.build, yes))
  {
  }

  lemma BuildPhased(s: State, yes: bool)
    requires Phased(s) && Owned(s) && s.loop.Build?
    ensures Phased(DoBuild(s, s.loop.build, yes))
  {
    BuildsWhenIdle(s);
    hide Built, Owned, DoBuild, TakenApart;
    BuildSparesTheRest(s, s.loop.build, yes);
    BuildBuilds(s, yes);
  }

  lemma TearPhased(s: State)
    requires Phased(s) && s.loop.Tear?
    ensures Phased(DoTear(s, s.loop.tear))
  {
  }

  lemma PollPhased(s: State, yes: bool)
    requires Phased(s) && !s.loop.Build? && !s.loop.Tear?
    ensures Phased(DoLoop(s, yes))
  {
  }

  lemma LoopPhased(s: State, yes: bool)
    requires Phased(s) && Owned(s)
    ensures Phased(DoLoop(s, yes))
  {
    hide Owned, Phased, DoBuild, DoTear, Branch;
    if s.loop.Build? { BuildPhased(s, yes); }
    else if s.loop.Tear? { TearPhased(s); }
    else { PollPhased(s, yes); }
  }

  lemma BuildLatest(s: State, yes: bool)
    requires Latest(s) && Phased(s) && s.loop.Build?
    ensures Latest(DoBuild(s, s.loop.build, yes))
  {
    BuildsWhenIdle(s);
    hide Phased;
  }

  lemma TearLatest(s: State)
    requires Latest(s) && Phased(s) && s.loop.Tear?
    ensures Latest(DoTear(s, s.loop.tear))
  {
    TearsWithoutReader(s);
    hide Phased;
  }

  lemma LoopLatest(s: State, yes: bool)
    requires Latest(s) && Phased(s)
    ensures Latest(DoLoop(s, yes))
  {
    hide DoBuild, DoTear, Built, TakenApart;
    if s.loop.Build? { BuildLatest(s, yes); } else if s.loop.Tear? { TearLatest(s); }
  }

  lemma BuildSparesRun(s: State, pc: BuildPc, yes: bool)
    ensures DoBuild(s, pc, yes).rv == s.rv && DoBuild(s, pc, yes).port.arbiter == s.port.arbiter
  {
  }

  lemma TearSparesRun(s: State, pc: TearPc)
    ensures var t := DoTear(s, pc);
      t == PppDown(s).(loop := t.loop) || (t.rv == s.rv && t.port.arbiter == s.port.arbiter)
  {
  }

  lemma LoopWaits(s: State, yes: bool)
    requires Waits(s)
    ensures Waits(DoLoop(s, yes))
  {
    hide A.Candidate, DoBuild, DoTear, Branch;
    match s.loop
    case Build(pc) => BuildSparesRun(s, pc, yes);
    case Tear(pc) => TearSparesRun(s, pc);
    case Polling => BranchSparesRun(s);
    case _ =>
  }

  lemma BranchSparesRun(s: State)
    ensures Branch(s).rv == s.rv && Branch(s).port == s.port
  {
  }

  lemma LoopKeeps(s: State, yes: bool)
    requires Inv(s)
    ensures Inv(DoLoop(s, yes))
  {
    hide Sessions, Owned, Phased, Latest, Waits, DoLoop;
    LoopSessions(s, yes);
    LoopWaits(s, yes);
    LoopOwned(s, yes);
    LoopPhased(s, yes);
    LoopLatest(s, yes);
  }

  lemma RestSessions(s: State, step: Step)
    requires Sessions(s) && Enabled(s, step) && !step.Read? && !step.Loop?
    ensures Sessions(Do(s, step))
  {
    hide DoReader, DoLoop;
    if s.reader != Absent {
      hide Sessions;
      SameSessions(s, Do(s, step));
    } else {
      hide InTear;
    }
  }

  lemma RestPhased(s: State, step: Step)
    requires Phased(s) && Enabled(s, step) && !step.Read? && !step.Loop?
    ensures Phased(Do(s, step))
  {
    hide DoReader, DoLoop;
  }

  lemma RestKeeps(s: State, step: Step)
    requires Inv(s) && Enabled(s, step) && !step.Read? && !step.Loop?
    ensures Inv(Do(s, step))
  {
    hide Sessions, Phased, A.Candidate, DoReader, DoLoop;
    RestSessions(s, step);
    RestPhased(s, step);
  }

  lemma StepKeeps(s: State, step: Step)
    requires Inv(s) && Enabled(s, step)
    ensures Inv(Do(s, step))
  {
    hide Inv, DoReader, DoLoop;
    match step
    case Read(data, yes) => ReaderKeeps(s, data, yes);
    case Loop(yes) => LoopKeeps(s, yes);
    case _ => RestKeeps(s, step);
  }

  // ---------------------------------------------------------------------
  // What the invariant buys, at every step
  // ---------------------------------------------------------------------

  /** esp_netif is only ever called on an interface that has not been destroyed. */
  lemma CallsOnlyLive(s: State, step: Step)
    requires Inv(s) && Enabled(s, step)
    ensures Called(s, step) <= s.heap.netifs
  {
    hide Sessions, Latest;
    if s.reader != Absent { ReaderHasNetif(s); }
  }

  /** Nothing else acts on one: whatever starts, stops or destroys an interface is such a
      call, on the interface there is. */
  lemma CallsAreAll(s: State, step: Step)
    requires Inv(s) && Enabled(s, step)
    ensures Do(s, step).port.esp != s.port.esp ==> Called(s, step) == {TheNetif(s)} && TheNetif(s) != 0
    ensures forall n :: n in s.heap.netifs && n !in Do(s, step).heap.netifs ==> n in Called(s, step)
  {
    hide Latest, Waits, DoFeed;
    if step.Read? { if s.reader != Absent { ReaderCallsAll(s, step.data, step.yes); } }
    else if step.Loop? { LoopCallsAll(s, step.yes); }
  }

  lemma ReaderCallsAll(s: State, data: seq<byte>, yes: bool)
    requires Owned(s) && Phased(s) && s.reader != Absent
    ensures var t := DoReader(s, data, yes);
      && t.heap == s.heap && (t.port.esp != s.port.esp ==> ReaderCalls(s.reader))
      && TheNetif(s) != 0 && (ReaderCalls(s.reader) ==> s.rv.netif == TheNetif(s))
  {
    hide DoService, DoFinish, DoReceive, DoTake, DoFeed;
    ReaderHasNetif(s);
    hide Phased;
    match s.reader
    case Service(pc) => ServiceCallsAll(s, pc, yes);
    case Finish(pc) => FinishCallsAll(s, pc);
    case Receive(pc) => ReceiveCallsAll(s, pc);
    case Take(pc) => TakeCallsAll(s, pc);
    case Feeding => FeedCallsAll(s);
    case _ =>
  }

  lemma ServiceCallsAll(s: State, pc: SvcPc, yes: bool)
    ensures var t := DoService(s, pc, yes); t.heap == s.heap && (pc != CallStop ==> t.port.esp == s.port.esp)
    ensures var t := DoService(s, pc, yes); t.past == s.past && t.port.arbiter == s.port.arbiter
  {
  }

  lemma FinishCallsAll(s: State, pc: FinPc)
    ensures var t := DoFinish(s, pc); t.heap == s.heap && (pc != FinCall ==> t.port.esp == s.port.esp)
    ensures var t := DoFinish(s, pc); t.past == s.past && (t.port.arbiter ==> s.port.arbiter)
  {
  }

  lemma ReceiveCallsAll(s: State, pc: RxPc)
    ensures var t := DoReceive(s, pc); t.heap == s.heap && t.port == s.port && t.past == s.past
  {
  }

  lemma TakeCallsAll(s: State, pc: TakePc)
    ensures var t := DoTake(s, pc); t.heap == s.heap && (pc != TakeCall ==> t.port.esp == s.port.esp)
    ensures var t := DoTake(s, pc); t.past == s.past && t.port.arbiter == s.port.arbiter
  {
  }

  lemma FeedCallsAll(s: State)
    ensures var t := DoFeed(s); t.heap == s.heap && t.port.esp == s.port.esp
  {
    hide Fed, RunAfter;
  }

  lemma LoopCallsAll(s: State, yes: bool)
    requires Sessions(s) && Owned(s) && Phased(s)
    ensures var t := DoLoop(s, yes);
      && (t.port.esp != s.port.esp ==> LoopCalls(s.loop) && s.lv.made == TheNetif(s) != 0)
      && forall n :: n in s.heap.netifs && n !in t.heap.netifs ==> LoopCalls(s.loop) && n == s.lv.made
  {
    hide DoBuild, DoTear, Sessions, Owned, Phased;
    if s.loop.Build? { BuildCallsAll(s, s.loop.build, yes); }
    else if s.loop.Tear? { TearCallsAll(s, s.loop.tear); }
  }

  lemma BuildCallsAll(s: State, pc: BuildPc, yes: bool)
    requires Sessions(s) && Phased(s) && s.loop == Build(pc)
    ensures var t := DoBuild(s, pc, yes);
      && t.port.esp == s.port.esp
      && forall n :: n in s.heap.netifs && n !in t.heap.netifs ==> pc == UndoDestroy && n == s.lv.made
  {
    if pc == BuildNew {
      BuildsWhenIdle(s);
      NewIsClosed(s);
    }
    hide Sessions, Phased;
  }

  lemma NewIsClosed(s: State)
    requires Sessions(s) && s.loop == Build(BuildNew) && s.lv.teardown == Idle && Built(s)
    ensures !s.port.esp
  {
  }

  lemma TearCallsAll(s: State, pc: TearPc)
    requires Owned(s) && s.loop == Tear(pc)
    ensures var t := DoTear(s, pc);
      && (t.port.esp != s.port.esp ==> pc == TearStop && s.lv.made == TheNetif(s) != 0)
      && forall n :: n in s.heap.netifs && n !in t.heap.netifs ==> pc == TearDestroy && n == s.lv.made
  {
  }

  /** An interface is started only when it is not, and destroyed only when it is
      not and no reader is left. */
  lemma StartsAndDestroysStopped(s: State)
    requires Inv(s)
    ensures s.reader == Take(TakeCall) ==> !s.port.esp
    ensures s.loop == Tear(TearDestroy) || s.loop == Build(UndoDestroy) ==> !s.port.esp && s.reader == Absent
  {
    hide Owned, Latest;
    if s.loop.Tear? { TearsWithoutReader(s); }
  }

  /** The log's own handler is put aside only while it is in place, so muting
      never overwrites it with the silent one. */
  lemma MutesWhatIsHeard(s: State)
    requires Inv(s) && s.reader == Take(TakeMute)
    ensures Heard(s) && Quiet(Mute(s)) && Heard(Unmute(Mute(s)))
  {
    hide Owned, Latest, Phased;
  }

  /** Between passes the arbiter, the other tasks, `transmit` and the log agree. */
  lemma AgreeBetweenPasses(s: State)
    requires Inv(s) && s.reader == Top
    ensures s.port.owner <==> s.port.arbiter
    ensures s.port.owner <==> s.port.started
    ensures s.port.owner <==> s.log.vprintf == Silent
  {
    hide Owned, Latest, Phased;
  }

  /** With nothing built and no build under way: the console owns the port and
      reads it directly, the log is back, no reader, no interface. */
  ghost predicate GivenBack(s: State) {
    && !s.port.owner && !s.port.arbiter && !s.port.started && !s.port.stopping && Heard(s)
    && s.reader == Absent && !s.flags.alive && !s.flags.stop && !s.flags.tearingDown
    && s.heap.netifs == {} && s.lv.console == Serial
  }

  lemma IdleIsGivenBack(s: State)
    requires Inv(s) && s.lv.teardown == Idle && s.heap.sNetif == 0 && Outside(s.loop)
    ensures GivenBack(s)
  {
    hide Latest, InTear, InService, InFinish, InTake;
  }

  lemma TeardownGivesBack(s: State, yes: bool)
    requires Inv(s) && s.loop == Tear(TearFlag)
    ensures GivenBack(DoLoop(s, yes)) && DoLoop(s, yes).lv.teardown == Idle
  {
    hide Latest, InService, InFinish, InTake;
    TearsWithoutReader(s);
  }

  /** The loop task changes what only the reader may use while it lives only
      when there is no reader. */
  lemma ReadersOwnIsSafe(s: State, yes: bool)
    requires Inv(s) && s.reader != Absent
    ensures var t := DoLoop(s, yes); t.log == s.log && t.port == s.port && t.rv == s.rv
  {
    hide Sessions, Latest, Owned, Phased;
    ReaderHasNetif(s);
  }

  /** Once the switch has gone off, PPP can still take the port in the pass
      already under way, and never after it. */
  lemma LastTakeover(s: State, data: seq<byte>, yes: bool)
    requires Inv(s) && s.reader != Absent
    ensures s.flags.tearingDown ==> s.past.takeovers <= 1
    ensures s.past.late ==> DoReader(s, data, yes).past.takeovers == s.past.takeovers
  {
    hide DoService, DoFinish, DoReceive, DoTake, DoFeed;
    hide Sessions, Owned, Phased, Waits;
    match s.reader
    case Service(pc) => ServiceCallsAll(s, pc, yes);
    case Finish(pc) => FinishCallsAll(s, pc);
    case Receive(pc) => ReceiveCallsAll(s, pc);
    case Take(pc) => TakeCallsAll(s, pc);
    case Feeding => FeedCounts(s);
    case _ =>
  }

  lemma FeedCounts(s: State)
    requires s.reader == Feeding
    ensures var t := DoFeed(s);
      t.past.takeovers == s.past.takeovers + if s.flags.tearingDown && t.reader.Take? then 1 else 0
    ensures var t := DoFeed(s); t.reader.Take? ==> s.rv.allow && t.port.arbiter
    ensures var t := DoFeed(s); !t.reader.Take? ==> t.port.arbiter == s.port.arbiter
  {
    hide RunAfter, A.ScanOf;
  }

  // ---------------------------------------------------------------------
  // Over whole runs
  // ---------------------------------------------------------------------

  /** `steps` is an interleaving the tasks can perform from `s`. */
  ghost predicate Runs(s: State, steps: seq<Step>)
    decreases |steps|, 0
  {
    steps == [] || (Runs(s, Init(steps)) && Enabled(After(s, Init(steps)), Last(steps)))
  }

  ghost function After(s: State, steps: seq<Step>): State
    requires Runs(s, steps)
    decreases |steps|, 1
  {
    if steps == [] then s else Do(After(s, Init(steps)), Last(steps))
  }

  lemma {:induction false} RunKeeps(s: State, steps: seq<Step>)
    requires Initial(s) && Runs(s, steps)
    ensures Inv(After(s, steps))
  {
    hide Inv, Do, Enabled, Initial;
    if steps == [] {
      InvInit(s);
    } else {
      RunKeeps(s, Init(steps));
      StepKeeps(After(s, Init(steps)), Last(steps));
    }
  }

  /** Only live interfaces are called, and there is one at most; an interface is
      started only when stopped, and destroyed only when stopped with no reader left. */
  ghost predicate CallsAreSafe(t: State, step: Step) {
    && Called(t, step) <= t.heap.netifs && |t.heap.netifs| <= 1
    && (t.reader == Take(TakeCall) ==> !t.port.esp)
    && (t.loop == Tear(TearDestroy) || t.loop == Build(UndoDestroy) ==> !t.port.esp && t.reader == Absent)
  }

  /** Between passes everybody agrees whose the port is; the log is muted only while
      its own handler is in place; the loop task leaves the reader's own alone while
      there is a reader. */
  ghost predicate TasksAgree(t: State, step: Step)
    requires Enabled(t, step)
  {
    && (t.reader == Top ==> (t.port.owner <==> t.port.arbiter) && (t.port.owner <==> t.port.started)
                            && (t.port.owner <==> t.log.vprintf == Silent))
    && (t.reader == Take(TakeMute) ==> Heard(t) && Heard(Unmute(Mute(t))))
    && (step.Loop? && t.reader != Absent ==>
          Do(t, step).log == t.log && Do(t, step).port == t.port && Do(t, step).rv == t.rv)
  }

  /** Whenever nothing is built, and at the end of every teardown, everything has been
      given back; from the switch-off on PPP takes the port once more at most, and not
      in a pass begun after it. */
  ghost predicate EndsAreClean(t: State, step: Step)
    requires Enabled(t, step)
  {
    && (t.lv.teardown == Idle && t.heap.sNetif == 0 && Outside(t.loop) ==> GivenBack(t))
    && (step.Loop? && t.loop == Tear(TearFlag) ==> GivenBack(Do(t, step)) && Do(t, step).lv.teardown == Idle)
    && (t.flags.tearingDown && t.reader != Absent ==> t.past.takeovers <= 1)
    && (step.Read? && t.past.late ==> Do(t, step).past.takeovers == t.past.takeovers)
  }

  lemma CallsStaySafe(t: State, step: Step)
    requires Inv(t) && Enabled(t, step)
    ensures CallsAreSafe(t, step)
  {
    hide Inv, Enabled, Called;
    CallsOnlyLive(t, step);
    OneAtMost(t);
    StartsAndDestroysStopped(t);
  }

  lemma TasksStayAgreed(t: State, step: Step)
    requires Inv(t) && Enabled(t, step)
    ensures TasksAgree(t, step)
  {
    hide Inv, Enabled, DoReader, DoLoop;
    if t.reader == Top { AgreeBetweenPasses(t); }
    if t.reader == Take(TakeMute) { MutesWhatIsHeard(t); }
    if step.Loop? && t.reader != Absent { ReadersOwnIsSafe(t, step.yes); }
  }

  lemma EndsStayClean(t: State, step: Step)
    requires Inv(t) && Enabled(t, step)
    ensures EndsAreClean(t, step)
  {
    hide Inv, GivenBack, DoReader, DoLoop;
    if t.lv.teardown == Idle && t.heap.sNetif == 0 && Outside(t.loop) { IdleIsGivenBack(t); }
    if step.Loop? && t.loop == Tear(TearFlag) { TeardownGivesBack(t, step.yes); }
    if t.reader != Absent { LastTakeover(t, [], false); }
    if step.Read? { LastTakeover(t, step.data, step.yes); }
  }

  /** In every interleaving of the three tasks, whatever step comes next. */
  lemma EveryRunIsSafe(s: State, steps: seq<Step>, step: Step)
    requires Initial(s) && Runs(s, steps) && Enabled(After(s, steps), step)
    ensures var t := After(s, steps); CallsAreSafe(t, step) && TasksAgree(t, step) && EndsAreClean(t, step)
  {
    hide Inv, Do, Enabled, Initial, CallsAreSafe, TasksAgree, EndsAreClean;
    RunKeeps(s, steps);
    var t := After(s, steps);
    CallsStaySafe(t, step);
    TasksStayAgreed(t, step);
    EndsStayClean(t, step);
  }

  lemma OneAtMost(s: State)
    requires Inv(s)
    ensures |s.heap.netifs| <= 1
  {
    hide Sessions, Phased, Latest;
  }

  // ---------------------------------------------------------------------
  // When the reader leaves without ending the session
  // ---------------------------------------------------------------------

  /** Fed one after the other, after the run already held, some byte takes the port. */
  predicate Takes(run: seq<byte>, rest: seq<byte>)
    decreases |rest|
  {
    rest != []
    && (Fed(run, rest[0], true).tookOver || Takes(RunAfter(run, rest[0], true), rest[1..]))
  }

  /** What the arbiter holds after some bytes that do not take the port. */
  function Holds(run: seq<byte>, bytes: seq<byte>): seq<byte>
    decreases |bytes|
  {
    if bytes == [] then run else Holds(RunAfter(run, bytes[0], true), bytes[1..])
  }

  /** In the language's terms: some byte completes a take-over word begun by what is
      held when it comes. */
  lemma {:induction false} TakesIff(run: seq<byte>, rest: seq<byte>)
    ensures Takes(run, rest) <==> exists k :: 0 <= k < |rest| && A.Takeover(Holds(run, rest[..k]) + [rest[k]])
    decreases |rest|
  {
    hide A.Takeover, Fed, RunAfter;
    if rest != [] {
      var next, tail := RunAfter(run, rest[0], true), rest[1..];
      FedIsDecided(run, rest[0], true);
      TakesIff(next, tail);
      assert Holds(run, rest[..0]) == run;
      forall k | 0 < k < |rest|
        ensures Holds(run, rest[..k]) == Holds(next, tail[..k - 1]) && rest[k] == tail[k - 1]
      {
        assert rest[..k][1..] == tail[..k - 1];
      }
      if Takes(next, tail) {
        var k :| 0 <= k < |tail| && A.Takeover(Holds(next, tail[..k]) + [tail[k]]);
        assert A.Takeover(Holds(run, rest[..k + 1]) + [rest[k + 1]]);
      }
    }
  }

  /** A whole word of at most sixteen bytes, with its beginning held, takes the port. */
  lemma {:induction false} WordTakes(w: seq<byte>, i: nat)
    requires A.Takeover(w) && i < |w| <= A.HOLD_MAX
    ensures Takes(w[..i], w[i..])
    decreases |w| - i
  {
    hide A.Takeover, A.Candidate, A.Verdict, A.ScanOf, RunAfter, Takes;
    assert w[..i] + [w[i]] == w[..i + 1];
    FedIsDecided(w[..i], w[i], true);
    A.DecidesWord(w, i, w[..i] != [], Fed(w[..i], w[i], true));
    if i + 1 < |w| {
      assert RunAfter(w[..i], w[i], true) == w[..i + 1] by { RunHeld(w[..i], w[i]); }
      WordTakes(w, i + 1);
      assert w[i..][1..] == w[i + 1..];
    }
    TakesNow(w[..i], w[i..]);
  }

  lemma RunHeld(run: seq<byte>, c: byte)
    ensures Fed(run, c, true).sink == A.Hold ==> RunAfter(run, c, true) == run + [c]
  {
  }

  lemma TakesNow(run: seq<byte>, rest: seq<byte>)
    requires rest != []
    ensures Takes(run, rest) <==> Fed(run, rest[0], true).tookOver || Takes(RunAfter(run, rest[0], true), rest[1..])
  {
  }

  /** The bytes that can still take the port: one that has decided and not been told,
      or those to come, if they complete a word, in a pass whose `service` had read
      the switch before it went off. */
  predicate StillTaking(s: State) {
    || s.reader == Take(TakeOwner)
    || (Takes(s.rv.run, s.rv.rest)
        && (|| s.reader == Service(LoadBuilt)
            || (s.reader == Service(Allow) && s.rv.wanted && s.rv.netif != 0)
            || ((s.reader == Service(ClearDead) || s.reader == Finish(FinMute)
                 || s.reader == Body || s.reader == Feeding) && s.rv.allow)))
  }

  /** The reader has been asked to leave, and has not left. */
  predicate Asked(s: State) { s.lv.teardown == Reader && s.reader != Absent }

  /** A run on which the reader is there before every step. */
  ghost predicate WhileThere(s: State, steps: seq<Step>)
    requires Runs(s, steps)
  {
    steps == [] || (WhileThere(s, Init(steps)) && After(s, Init(steps)).reader != Absent)
  }

  lemma ServiceTakesNothing(s: State, yes: bool)
    requires Inv(s) && s.reader.Service? && s.flags.tearingDown && !s.port.owner && !StillTaking(s)
    ensures var t := DoService(s, s.reader.svc, yes); !t.port.owner && !StillTaking(t)
  {
    hide Owned, Latest, Phased, Waits, Takes;
  }

  lemma FeedTakesNothing(s: State)
    requires s.reader == Feeding && !s.port.owner && !StillTaking(s)
    ensures var t := DoFeed(s); !t.port.owner && !StillTaking(t)
  {
    hide Takes, Fed, RunAfter;
    if s.rv.rest != [] {
      FedIsDecided(s.rv.run, s.rv.rest[0], s.rv.allow);
      TakesNow(s.rv.run, s.rv.rest);
    }
  }

  lemma ReaderTakesNothing(s: State, data: seq<byte>, yes: bool)
    requires Inv(s) && s.reader != Absent && s.flags.tearingDown && !s.port.owner && !StillTaking(s)
    ensures var t := DoReader(s, data, yes); !t.port.owner && !StillTaking(t)
  {
    hide Owned, Latest, Phased, Waits, Takes, DoService, DoFeed;
    if s.reader.Service? { ServiceTakesNothing(s, yes); }
    else if s.reader == Feeding { FeedTakesNothing(s); }
    else { NothingLeftToTake(s); }
  }

  /** Without bytes to come nothing is taken. */
  lemma NothingLeftToTake(s: State)
    ensures !Takes(s.rv.run, [])
  {
  }

  /** While an asked reader is there the loop task only looks at it. */
  lemma LoopOnlyLooks(s: State, step: Step)
    requires Phased(s) && Asked(s) && Enabled(s, step) && !step.Read?
    ensures var t := Do(s, step);
      t.rv == s.rv && t.port == s.port && t.reader == s.reader && t.lv.teardown == Reader
  {
    hide DoReader, DoBuild, DoTear, Built;
    TearsOnlyAlone(s);
  }

  lemma SameTaking(s: State, t: State)
    requires t.rv == s.rv && t.reader == s.reader
    ensures StillTaking(t) == StillTaking(s)
  {
    hide Takes;
  }

  /** What an asked reader is not about to take it does not take. */
  lemma TakesNothing(s: State, step: Step)
    requires Inv(s) && Asked(s) && Enabled(s, step) && !s.port.owner && !StillTaking(s)
    ensures var t := Do(s, step); !t.port.owner && !StillTaking(t) && t.lv.teardown == Reader
  {
    hide Sessions, Owned, Latest, Phased, Waits, StillTaking, Enabled, DoReader, DoLoop;
    if step.Read? {
      AskedIsTearing(s);
      ReaderTakesNothing(s, step.data, step.yes);
      if s.reader == Top || Leaving(s.reader) { LeavingAside(s, step.data, step.yes); }
      else { InsideReader(s, step.data, step.yes); }
    } else {
      LoopOnlyLooks(s, step);
      SameTaking(s, Do(s, step));
    }
  }

  lemma AskedIsTearing(s: State)
    requires Phased(s) && Asked(s)
    ensures s.flags.tearingDown && (s.reader != Unalive ==> s.flags.stop)
  {
  }

  lemma LeavingAside(s: State, data: seq<byte>, yes: bool)
    requires s.reader == Top || Leaving(s.reader)
    ensures DoReader(s, data, yes).lv == s.lv
  {
  }

  lemma {:induction false} LeavesClosed(s: State, steps: seq<Step>)
    requires Inv(s) && Asked(s) && !s.port.owner && !StillTaking(s)
    requires Runs(s, steps) && WhileThere(s, steps)
    ensures var t := After(s, steps); Inv(t) && !t.port.owner && !StillTaking(t) && t.lv.teardown == Reader
  {
    hide Inv, Enabled, Do, StillTaking;
    if steps != [] {
      LeavesClosed(s, Init(steps));
      StepKeeps(After(s, Init(steps)), Last(steps));
      TakesNothing(After(s, Init(steps)), Last(steps));
    }
  }

  lemma Extend(s: State, steps: seq<Step>, step: Step)
    requires Runs(s, steps) && Enabled(After(s, steps), step)
    ensures Runs(s, steps + [step]) && After(s, steps + [step]) == Do(After(s, steps), step)
    ensures WhileThere(s, steps) && After(s, steps).reader != Absent ==> WhileThere(s, steps + [step])
  {
    hide Enabled, Do;
    assert Init(steps + [step]) == steps && Last(steps + [step]) == step;
  }

  /** From the byte that decides to the reader's end, with nothing in between. */
  predicate Heading(s: State) {
    (!s.port.owner && StillTaking(s))
    || (s.port.arbiter && (s.reader.Take? || s.reader.Receive? || s.reader == Top || Leaving(s.reader)))
  }

  function Distance(s: State): nat {
    match s.reader
    case Absent => 0
    case Unalive => 1
    case Clearing => 2
    case Top => 3
    case Receive(pc) =>
      (if s.rv.rest != [] then 7 else 4) + (match pc case RxCall => 0 case RxLoad => 1 case RxStarted => 2)
    case Take(pc) =>
      10 + (match pc
            case TakeCall => 0 case TakeLoad => 1 case TakeStore => 2 case TakeStarted => 3
            case TakeNetif => 4 case TakeMute => 5 case TakeOwner => 6)
    case Feeding => 17 + |s.rv.rest|
    case Body => 18 + |s.rv.rest|
    case Finish(_) => 19 + |s.rv.rest|
    case Service(pc) => (match pc case ClearDead => 19 case Allow => 20 case _ => 21) + |s.rv.rest|
    case Reading => 22
  }

  lemma FeedHeads(s: State)
    requires Heading(s) && s.reader == Feeding
    ensures var t := DoFeed(s); Distance(t) < Distance(s) && t.lv == s.lv && t.reader != Absent && Heading(t)
  {
    hide Takes, Fed, RunAfter;
    NothingLeftToTake(s);
    if s.rv.rest != [] { TakesNow(s.rv.run, s.rv.rest); }
  }

  lemma ServiceHeads(s: State)
    requires Inv(s) && Heading(s) && s.reader.Service?
    ensures var t := DoService(s, s.reader.svc, true);
      Distance(t) < Distance(s) && t.lv == s.lv && t.reader != Absent && Heading(t)
  {
    hide Owned, Latest, Waits, Takes;
    ReaderHasNetif(s);
    hide Phased;
  }

  lemma HeadsOn(s: State)
    requires Inv(s) && Asked(s) && Heading(s)
    ensures var t := DoReader(s, [], true);
      && Distance(t) < Distance(s) && t.lv.teardown == Reader
      && (if t.reader == Absent then t.port.arbiter else Heading(t))
  {
    hide Owned, Latest, Waits, Phased, Takes, DoFeed, DoService;
    ReaderHasNetif(s);
    AskedIsTearing(s);
    NothingLeftToTake(s);
    if s.reader == Feeding { FeedHeads(s); }
    else if s.reader.Service? { ServiceHeads(s); }
  }

  lemma {:induction false} HeadsOut(s: State, steps: seq<Step>) returns (more: seq<Step>)
    requires Runs(s, steps) && WhileThere(s, steps) && Inv(After(s, steps))
    requires Asked(After(s, steps)) && Heading(After(s, steps))
    ensures Runs(s, more) && WhileThere(s, more)
    ensures var t := After(s, more); Inv(t) && t.reader == Absent && t.lv.teardown == Reader && t.port.arbiter
    decreases Distance(After(s, steps))
  {
    hide Inv, Heading, Distance, DoReader;
    var t := After(s, steps);
    Extend(s, steps, Read([], true));
    HeadsOn(t);
    StepKeeps(t, Read([], true));
    more := steps + [Read([], true)];
    if DoReader(t, [], true).reader != Absent { more := HeadsOut(s, more); }
  }

  /** With the reader gone, the session was left open when the arbiter says so. */
  lemma LeftOpen(s: State)
    requires Inv(s) && s.lv.teardown == Reader && s.reader == Absent && !s.loop.Tear?
    ensures s.port.arbiter <==> Open(s)
    ensures s.port.owner <==> Open(s)
  {
    hide Owned, Latest, Phased;
  }

  lemma LeavesBeforeTear(s: State, steps: seq<Step>)
    requires Inv(s) && Asked(s) && Runs(s, steps) && WhileThere(s, steps) && Inv(After(s, steps))
    ensures !After(s, steps).loop.Tear?
  {
    hide Sessions, Owned, Latest, Enabled;
    if steps == [] {
      TearsOnlyAlone(s);
    } else {
      hide Do;
      var t := After(s, Init(steps));
      RunKeepsFrom(s, Init(steps));
      assert !t.loop.Tear? && !(t.loop == TearLoad) by { TearsOnlyAlone(t); }
      TearsNext(t, Last(steps));
    }
  }

  lemma TearsOnlyAlone(s: State)
    requires Phased(s) && s.reader != Absent
    ensures !s.loop.Tear? && s.loop != TearLoad
  {
  }

  lemma TearsNext(s: State, step: Step)
    requires s.reader != Absent && !s.loop.Tear? && s.loop != TearLoad
    ensures !Do(s, step).loop.Tear?
  {
    hide DoService, DoFinish, DoReceive, DoTake, DoFeed;
    match step
    case Read(data, yes) => ReaderSparesLoop(s, data, yes);
    case _ =>
  }

  lemma ReaderSparesLoop(s: State, data: seq<byte>, yes: bool)
    ensures DoReader(s, data, yes).loop == s.loop
  {
  }

  lemma {:induction false} RunKeepsFrom(s: State, steps: seq<Step>)
    requires Inv(s) && Runs(s, steps)
    ensures Inv(After(s, steps))
  {
    hide Inv, Do, Enabled;
    if steps != [] {
      RunKeepsFrom(s, Init(steps));
      StepKeeps(After(s, Init(steps)), Last(steps));
    }
  }

  /** Asked to leave with the port the console's, the reader can still leave a
      session open, so that `finish` never runs for it, exactly when it is still
      taking the port; the clean-up is what ends that session. */
  lemma FinishIsSkippedIff(s: State)
    requires Inv(s) && Asked(s) && !s.port.owner
    ensures StillTaking(s) <==> exists steps ::
      Runs(s, steps) && WhileThere(s, steps) && After(s, steps).reader == Absent && Open(After(s, steps))
  {
    hide Inv, StillTaking, Open, Distance, Enabled, Do;
    if StillTaking(s) {
      assert Heading(s);
      hide Heading;
      var steps := HeadsOut(s, []);
      LeavesBeforeTear(s, steps);
      LeftOpen(After(s, steps));
    } else {
      forall steps | Runs(s, steps) && WhileThere(s, steps) && After(s, steps).reader == Absent
        ensures !Open(After(s, steps))
      {
        LeavesClosed(s, steps);
        LeavesBeforeTear(s, steps);
        LeftOpen(After(s, steps));
      }
    }
  }

  // A run that gets there: PPP is switched on, a chunk arrives, `service` finds
  // the switch on, and before the chunk reaches the arbiter the switch goes off.

  /** A flag and a Configure-Request's first bytes without address and control. */
  const REQUEST: seq<byte> := [0x7E, 0xC0, 0x21, 0x01]

  function BuildAt(k: nat): BuildPc {
    if k <= 2 then BuildNew else if k == 3 then BuildStarted else if k == 4 then BuildDead
    else if k == 5 then BuildClosing else if k == 6 then BuildPublish else if k == 7 then BuildStop
    else if k == 8 then BuildAlive else if k == 9 then BuildTask else BuildConsole
  }

  function LoopAt(k: nat): LoopPc {
    if k == 0 then LoopOut else if k == 1 then Polling else if k <= 10 then Build(BuildAt(k))
    else if k <= 16 then LoopOut else if k == 17 then Polling else if k == 18 then StopFlag
    else if k == 19 then StepSession else StepAsk
  }

  function ReaderAt(k: nat): ReaderPc {
    if k < 10 then Absent else if k <= 11 then Top else if k == 12 then Reading
    else if k == 13 then Service(LoadEnabled) else if k == 14 then Service(LoadClosing)
    else if k == 15 then Service(LoadTearing) else Service(LoadBuilt)
  }

  function NextStep(k: nat): Step {
    if k == 0 then Poll(true) else if k <= 10 then Loop(true) else if k <= 15 then Read(REQUEST, false)
    else if k == 16 then Poll(false) else Loop(false)
  }

  ghost predicate Stage(k: nat, s: State) {
    && k <= 20 && s.loop == LoopAt(k) && s.reader == ReaderAt(k)
    && s.lv.teardown == (if k <= 18 then Idle else Session) && !s.port.arbiter
    && (k <= 1 ==> !s.lv.failed && s.heap.sNetif == 0)
    && (k == 1 ==> s.lv.polled) && (k == 17 ==> !s.lv.polled)
    && (1 <= k <= 16 ==> s.flags.enabled) && (k >= 6 ==> !s.flags.closing) && (k >= 13 ==> s.rv.rest == REQUEST)
    && s.rv.run == []
  }

  lemma StageStarts(k: nat, s: State)
    requires Stage(k, s) && k < 2
    ensures Enabled(s, NextStep(k)) && Stage(k + 1, Do(s, NextStep(k)))
  {
    hide DoReader, DoTear, DoBuild;
  }

  lemma StageBuilds(k: nat, s: State)
    requires Stage(k, s) && 2 <= k < 11
    ensures Enabled(s, NextStep(k)) && Stage(k + 1, Do(s, NextStep(k)))
  {
    hide DoReader, DoTear, Branch;
  }

  lemma StageReads(k: nat, s: State)
    requires Inv(s) && Stage(k, s) && 11 <= k < 16
    ensures Enabled(s, NextStep(k)) && Stage(k + 1, Do(s, NextStep(k)))
  {
    hide Sessions, Owned, Latest, DoLoop;
    ReaderHasNetif(s);
  }

  lemma StageStops(k: nat, s: State)
    requires Inv(s) && Stage(k, s) && 16 <= k < 20
    ensures Enabled(s, NextStep(k)) && Stage(k + 1, Do(s, NextStep(k)))
  {
    hide Owned, Latest, DoReader, DoTear, DoBuild, Phased;
    ReaderHasNetif(s);
  }

  lemma {:induction false} Staged(s: State, k: nat) returns (steps: seq<Step>)
    requires Initial(s) && k <= 20
    ensures Runs(s, steps) && Stage(k, After(s, steps)) && Inv(After(s, steps))
  {
    hide Enabled, Do, Inv;
    if k == 0 {
      steps := [];
      InvInit(s);
    } else {
      hide Stage;
      var before := Staged(s, k - 1);
      var t := After(s, before);
      if k - 1 < 2 { StageStarts(k - 1, t); }
      else if k - 1 < 11 { StageBuilds(k - 1, t); }
      else if k - 1 < 16 { StageReads(k - 1, t); }
      else { StageStops(k - 1, t); }
      Extend(s, before, NextStep(k - 1));
      StepKeeps(t, NextStep(k - 1));
      steps := before + [NextStep(k - 1)];
    }
  }

  lemma StageEnds(s: State)
    requires Stage(20, s) && Inv(s)
    ensures s.loop == StepAsk && s.lv.teardown == Session && !s.port.owner
    ensures var t := Do(s, Loop(true)); Asked(t) && !t.port.owner && StillTaking(t)
  {
    hide Owned, Latest, Phased, Waits, Takes;
    RequestTakes();
  }

  lemma RequestTakes()
    ensures Takes([], REQUEST)
  {
    hide Takes;
    assert A.SpeltAs(REQUEST, A.BARE, [0x7E], [false, false, false]);
    WordTakes(REQUEST, 0);
    assert REQUEST[..0] == [] && REQUEST[0..] == REQUEST;
  }

  /** There is a run on which the loop task finds the port the console's, asks
      the reader to leave, and the reader then takes the port and leaves it
      PPP's: `finish` does not always run. */
  lemma FinishCanBeSkipped(s: State) returns (before: seq<Step>, after: seq<Step>)
    requires Initial(s)
    ensures Runs(s, before) && After(s, before).loop == StepAsk && !After(s, before).port.owner
    ensures var t := Do(After(s, before), Loop(true));
      && Runs(t, after) && WhileThere(t, after) && After(t, after).reader == Absent && Open(After(t, after))
  {
    hide Enabled, Do, Inv, StillTaking, Stage, Open;
    before := Staged(s, 20);
    var t := After(s, before);
    StageEnds(t);
    assert Enabled(t, Loop(true)) by { LoopIsEnabled(t); }
    StepKeeps(t, Loop(true));
    FinishIsSkippedIff(Do(t, Loop(true)));
    after :| Runs(Do(t, Loop(true)), after) && WhileThere(Do(t, Loop(true)), after)
             && After(Do(t, Loop(true)), after).reader == Absent && Open(After(Do(t, Loop(true)), after));
  }

  lemma LoopIsEnabled(s: State)
    requires s.loop != LoopOut
    ensures Enabled(s, Loop(true))
  {
  }
}
