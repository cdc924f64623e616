/** The USB network link of src/net/UsbNcm.cpp as a transition system, one step
    an atomic access or a call into another component.

    Four contexts interleave freely: the loop task (build, teardown, up, down),
    the TCP/IP task (`transmit`, and lwIP's mailbox), the USB task (`drain` and
    `tud_network_recv_cb`), and whatever queues drains (the retry timer, which
    in the model is a drain that may begin at any time). Handles are numbers,
    0 is null, and a number is never given out twice. */
module UsbNcm {
  import opened Bytes

  type Packet = seq<byte>

  const TX_SLOTS: nat := 4
  /** CFG_TUD_NET_MTU. */
  const NET_MTU: nat := 1514

  datatype Stop = Idle | Quiesce | Lwip | Finish

  datatype Msg = Frame(netif: nat) | Barrier

  /** `transmit`, on the TCP/IP task. */
  datatype TxPc =
    | TxOut
    | TxCounted(p: Packet)
    | TxLoaded(p: Packet, ring: nat)
    | TxChecked(p: Packet, ring: nat)
    | TxHead(p: Packet, ring: nat, head: nat)
    | TxRoom(p: Packet, ring: nat, head: nat)
    | TxWritten(p: Packet, ring: nat, head: nat)
    | TxLeaving

  /** The message the TCP/IP task is in the middle of. */
  datatype MsgPc = NoMsg | Consuming(netif: nat) | InBarrier | BarrierRead(asked: nat)

  /** The USB task. */
  datatype UsbPc =
    | UsbOut
    | DrainCounted
    | DrainLoop(ring: nat)
    | DrainTail(ring: nat, tail: nat)
    | DrainSlot(ring: nat, tail: nat)
    | DrainDone(ring: nat)
    | DrainLeaving
    | RecvAdmitted
    | RecvCounted
    | RecvLoaded(netif: nat)
    | RecvLeaving

  /** The loop task, inside `poll`. */
  datatype LoopPc =
    | LoopOut
    | BuildRing(ring: nat)
    | BuildTail(ring: nat)
    | BuildHead(ring: nat)
    | BuildNetif(ring: nat, netif: nat)
    | BuildPublished(netif: nat)
    | GoingUp
    | Connecting
    | GoingDown
    | StopDown
    | StopNetif
    | StopRing
    | QuiesceRing
    | QuiesceNetif
    | QuiesceAsk
    | QuiescePost
    | FinishDestroy
    | FinishFree

  datatype State = State(
    // shared with other tasks
    sNetif: nat, sTxSlots: nat, sUp: bool, ringUsers: nat, netifUsers: nat,
    head: nat, tail: nat, asked: nat, seen: nat,
    // the loop task's own
    stop: Stop, stopNetif: nat, stopSlots: nat, failed: bool,
    // where each task is
    tx: TxPc, msg: MsgPc, usb: UsbPc, loop: LoopPc,
    // lwIP's mailbox and the heap
    mailbox: seq<Msg>, netifs: set<nat>, rings: map<nat, seq<Packet>>, nextId: nat,
    // history: packets accepted and consumed since the ring was built, which of
    // them were sent, and barriers asked for since the last one ran
    accepted: seq<Packet>, consumed: nat, sentAt: seq<nat>, sent: seq<Packet>, attempts: nat)

  /** Nothing built, nobody inside, nothing posted. */
  predicate Initial(s: State) {
    && s.sNetif == 0 && s.sTxSlots == 0 && !s.sUp && s.ringUsers == 0 && s.netifUsers == 0
    && s.asked == 0 && s.seen == 0 && s.stop == Idle && s.stopNetif == 0 && s.stopSlots == 0 && !s.failed
    && s.tx == TxOut && s.msg == NoMsg && s.usb == UsbOut && s.loop == LoopOut
    && s.mailbox == [] && s.netifs == {} && s.rings == map[] && s.nextId == 1
    && s.accepted == [] && s.consumed == 0 && s.sentAt == [] && s.sent == [] && s.attempts == 0
  }

  /** `transmit`. */
  datatype TxStep =
    | TxEnter(p: Packet) | TxLoad | TxCheck | TxLoadHead | TxLoadTail | TxWrite | TxPublish | TxLeave

  /** lwIP's mailbox. */
  datatype MsgStep =
    | TakeMsg | Consume | BarrierLoad | BarrierStore

  /** `drain` and `tud_network_recv_cb`. */
  datatype UsbStep =
    | DrainEnter | DrainLoad | DrainLoadTail | DrainLoadHead | DrainDrop(stale: bool) | DrainBusy | DrainSend
    | DrainAdvance | DrainLeave | RecvEnter | RecvCount | RecvLoad | RecvPost(posted: bool) | RecvSkip | RecvLeave

  /** `poll`, building, coming up and going down. */
  datatype UpkeepStep =
    | BuildStart(timer: bool, memory: bool) | BuildZeroTail | BuildZeroHead | BuildNew(memory: bool)
    | BuildPublishRing | BuildPublishNetif | PollIdle(enabled: bool) | UpStart | UpConnect | UpDone | DownStart
    | DownStop

  /** `poll`, taking apart. */
  datatype TeardownStep =
    | StopStart | StopBringDown | StopTakeNetif | StopTakeRing | PollQuiesce | CheckRingUsers | CheckNetifUsers
    | AskBarrier | PostBarrier(room: bool) | PollLwip | PollFinish | DestroyNetif | FreeRing

  datatype Step =
    | OnTx(tx: TxStep) | OnMsg(msg: MsgStep) | OnUsb(usb: UsbStep) | OnUpkeep(upkeep: UpkeepStep)
    | OnTeardown(teardown: TeardownStep)

  function Slot(i: nat): nat { i % TX_SLOTS }

  function Next32(x: nat): nat { Wrap(x + 1) }

  /** `LazyStart::shouldStart`, of a poll that finds the switch on. */
  predicate ShouldStart(s: State) { s.loop == LoopOut && s.stop == Idle && s.sNetif == 0 && !s.failed }

  predicate ShouldStop(s: State) { s.loop == LoopOut && s.stop == Idle && s.sNetif != 0 }

  // Whether a step is the next thing its task does.

  predicate TxEnabled(s: State, step: TxStep) {
    match step
    case TxEnter(_) => s.tx == TxOut && (s.msg.NoMsg? || s.msg.Consuming?)
    case TxLoad => s.tx.TxCounted?
    case TxCheck => s.tx.TxLoaded?
    case TxLoadHead => s.tx.TxChecked?
    case TxLoadTail => s.tx.TxHead?
    case TxWrite => s.tx.TxRoom?
    case TxPublish => s.tx.TxWritten?
    case TxLeave => s.tx == TxLeaving
  }

  predicate MsgEnabled(s: State, step: MsgStep) {
    match step
    case TakeMsg => s.tx == TxOut && s.msg == NoMsg && s.mailbox != []
    case Consume => s.tx == TxOut && s.msg.Consuming?
    case BarrierLoad => s.msg == InBarrier
    case BarrierStore => s.msg.BarrierRead?
  }

  predicate UsbEnabled(s: State, step: UsbStep) {
    match step
    case DrainEnter => s.usb == UsbOut
    case DrainLoad => s.usb == DrainCounted
    case DrainLoadTail => s.usb.DrainLoop?
    case DrainLoadHead => s.usb.DrainTail?
    case DrainDrop(stale) => s.usb.DrainSlot? && (!s.sUp || stale)
    case DrainBusy => s.usb.DrainSlot?
    case DrainSend => s.usb.DrainSlot?
    case DrainAdvance => s.usb.DrainDone?
    case DrainLeave => s.usb == DrainLeaving
    case RecvEnter => s.usb == UsbOut && s.sUp
    case RecvCount => s.usb == RecvAdmitted
    case RecvLoad => s.usb == RecvCounted
    case RecvPost(_) => s.usb.RecvLoaded? && s.usb.netif != 0
    case RecvSkip => s.usb.RecvLoaded?
    case RecvLeave => s.usb == RecvLeaving
  }

  predicate UpkeepEnabled(s: State, step: UpkeepStep) {
    match step
    case BuildStart(_, _) => ShouldStart(s)
    case BuildZeroTail => s.loop.BuildRing?
    case BuildZeroHead => s.loop.BuildTail?
    case BuildNew(_) => s.loop.BuildHead?
    case BuildPublishRing => s.loop.BuildNetif?
    case BuildPublishNetif => s.loop.BuildPublished?
    case PollIdle(_) => s.loop == LoopOut && s.stop == Idle
    case UpStart => s.loop == LoopOut && s.stop == Idle && s.sNetif != 0 && !s.sUp
    case UpConnect => s.loop == GoingUp
    case UpDone => s.loop == Connecting
    case DownStart => s.loop == LoopOut && s.stop == Idle && s.sNetif != 0 && s.sUp
    case DownStop => s.loop == GoingDown
  }

  predicate TeardownEnabled(s: State, step: TeardownStep) {
    match step
    case StopStart => ShouldStop(s)
    case StopBringDown => s.loop == StopDown
    case StopTakeNetif => s.loop == StopNetif
    case StopTakeRing => s.loop == StopRing
    case PollQuiesce => s.loop == LoopOut && s.stop == Quiesce
    case CheckRingUsers => s.loop == QuiesceRing
    case CheckNetifUsers => s.loop == QuiesceNetif
    case AskBarrier => s.loop == QuiesceAsk
    case PostBarrier(_) => s.loop == QuiescePost
    case PollLwip => s.loop == LoopOut && s.stop == Lwip
    case PollFinish => s.loop == LoopOut && s.stop == Finish
    case DestroyNetif => s.loop == FinishDestroy
    case FreeRing => s.loop == FinishFree
  }

  predicate Enabled(s: State, step: Step) {
    match step
    case OnTx(x) => TxEnabled(s, x)
    case OnMsg(m) => MsgEnabled(s, m)
    case OnUsb(u) => UsbEnabled(s, u)
    case OnUpkeep(k) => UpkeepEnabled(s, k)
    case OnTeardown(d) => TeardownEnabled(s, d)
  }

  /** What a step would touch: rings it reads or writes, interfaces it is a call on. */
  function RingsTouched(s: State, step: Step): set<nat> {
    match step
    case OnTx(TxWrite) => if s.tx.TxRoom? then {s.tx.ring} else {}
    case OnUsb(DrainDrop(_)) => if s.usb.DrainSlot? then {s.usb.ring} else {}
    case OnUsb(DrainSend) => if s.usb.DrainSlot? then {s.usb.ring} else {}
    case OnUpkeep(BuildNew(false)) => if s.loop.BuildHead? then {s.loop.ring} else {}
    case OnTeardown(FreeRing) => if s.stopSlots != 0 then {s.stopSlots} else {}
    case _ => {}
  }

  function NetifsTouched(s: State, step: Step): set<nat> {
    match step
    case OnMsg(Consume) => if s.msg.Consuming? then {s.msg.netif} else {}
    case OnUsb(RecvPost(_)) => if s.usb.RecvLoaded? then {s.usb.netif} else {}
    case OnUpkeep(UpStart) => {s.sNetif}
    case OnUpkeep(UpConnect) => {s.sNetif}
    case OnUpkeep(DownStop) => {s.sNetif}
    case OnTeardown(StopBringDown) => {s.sNetif}
    case OnTeardown(PollFinish) => {s.stopNetif}
    case OnTeardown(DestroyNetif) => {s.stopNetif}
    case _ => {}
  }

  function DoTx(s: State, step: TxStep): State
    requires TxEnabled(s, step)
  {
    match step
    case TxEnter(p) => s.(ringUsers := s.ringUsers + 1, tx := TxCounted(p))
    case TxLoad => s.(tx := TxLoaded(s.tx.p, s.sTxSlots))
    case TxCheck =>
      if !s.sUp || s.tx.ring == 0 || |s.tx.p| > NET_MTU then s.(tx := TxLeaving)
      else s.(tx := TxChecked(s.tx.p, s.tx.ring))
    case TxLoadHead => s.(tx := TxHead(s.tx.p, s.tx.ring, s.head))
    case TxLoadTail =>
      if Gap(s.tx.head, s.tail) >= TX_SLOTS then s.(tx := TxLeaving)
      else s.(tx := TxRoom(s.tx.p, s.tx.ring, s.tx.head))
    case TxWrite =>
      var mem := if s.tx.ring in s.rings && |s.rings[s.tx.ring]| == TX_SLOTS
                 then s.rings[s.tx.ring := s.rings[s.tx.ring][Slot(s.tx.head) := s.tx.p]] else s.rings;
      s.(rings := mem, tx := TxWritten(s.tx.p, s.tx.ring, s.tx.head))
    case TxPublish =>
      s.(head := Next32(s.tx.head), accepted := s.accepted + [s.tx.p], tx := TxLeaving)
    case TxLeave => s.(ringUsers := if s.ringUsers > 0 then s.ringUsers - 1 else 0, tx := TxOut)
  }

  function DoMsg(s: State, step: MsgStep): State
    requires MsgEnabled(s, step)
  {
    match step
    case TakeMsg =>
      s.(mailbox := s.mailbox[1..],
         msg := match s.mailbox[0] case Frame(n) => Consuming(n) case Barrier => InBarrier)
    case Consume => s.(msg := NoMsg)
    case BarrierLoad => s.(msg := BarrierRead(s.asked))
    case BarrierStore => s.(seen := s.msg.asked, msg := NoMsg, attempts := 0)
  }

  function DoUsb(s: State, step: UsbStep): State
    requires UsbEnabled(s, step)
  {
    match step
    case DrainEnter => s.(ringUsers := s.ringUsers + 1, usb := DrainCounted)
    case DrainLoad => s.(usb := if s.sTxSlots == 0 then DrainLeaving else DrainLoop(s.sTxSlots))
    case DrainLoadTail => s.(usb := DrainTail(s.usb.ring, s.tail))
    case DrainLoadHead =>
      s.(usb := if s.usb.tail == s.head then DrainLeaving else DrainSlot(s.usb.ring, s.usb.tail))
    case DrainDrop(_) => s.(usb := DrainDone(s.usb.ring))
    case DrainBusy => s.(usb := DrainLeaving)
    case DrainSend =>
      var p := if s.usb.ring in s.rings && |s.rings[s.usb.ring]| == TX_SLOTS
               then [s.rings[s.usb.ring][Slot(s.usb.tail)]] else [];
      s.(sent := s.sent + p, sentAt := s.sentAt + [s.consumed], usb := DrainDone(s.usb.ring))
    case DrainAdvance => s.(tail := Next32(s.tail), consumed := s.consumed + 1, usb := DrainLoop(s.usb.ring))
    case DrainLeave => s.(ringUsers := if s.ringUsers > 0 then s.ringUsers - 1 else 0, usb := UsbOut)
    case RecvEnter => s.(usb := RecvAdmitted)
    case RecvCount => s.(netifUsers := s.netifUsers + 1, usb := RecvCounted)
    case RecvLoad => s.(usb := RecvLoaded(s.sNetif))
    case RecvPost(posted) =>
      s.(mailbox := if posted then s.mailbox + [Frame(s.usb.netif)] else s.mailbox, usb := RecvLeaving)
    case RecvSkip => s.(usb := RecvLeaving)
    case RecvLeave => s.(netifUsers := if s.netifUsers > 0 then s.netifUsers - 1 else 0, usb := UsbOut)
  }

  function DoUpkeep(s: State, step: UpkeepStep): State
    requires UpkeepEnabled(s, step)
  {
    match step
    case BuildStart(timer, memory) =>
      if timer && memory then
        s.(rings := s.rings[s.nextId := [[], [], [], []]], nextId := s.nextId + 1, loop := BuildRing(s.nextId))
      else s.(failed := true)
    case BuildZeroTail => s.(tail := 0, loop := BuildTail(s.loop.ring))
    case BuildZeroHead => s.(head := 0, loop := BuildHead(s.loop.ring))
    case BuildNew(memory) =>
      if memory then
        s.(netifs := s.netifs + {s.nextId}, nextId := s.nextId + 1, loop := BuildNetif(s.loop.ring, s.nextId))
      else s.(rings := s.rings - {s.loop.ring}, failed := true, loop := LoopOut)
    case BuildPublishRing =>
      s.(sTxSlots := s.loop.ring, loop := BuildPublished(s.loop.netif),
         accepted := [], consumed := 0, sentAt := [], sent := [])
    case BuildPublishNetif => s.(sNetif := s.loop.netif, failed := false, loop := LoopOut)
    case PollIdle(enabled) => if !enabled && s.sNetif == 0 then s.(failed := false) else s
    case UpStart => s.(loop := GoingUp)
    case UpConnect => s.(loop := Connecting)
    case UpDone => s.(sUp := true, loop := LoopOut)
    case DownStart => s.(sUp := false, loop := GoingDown)
    case DownStop => s.(loop := LoopOut)
  }

  function DoTeardown(s: State, step: TeardownStep): State
    requires TeardownEnabled(s, step)
  {
    match step
    case StopStart => if s.sUp then s.(sUp := false, loop := StopDown) else s.(loop := StopNetif)
    case StopBringDown => s.(loop := StopNetif)
    case StopTakeNetif => s.(stopNetif := s.sNetif, sNetif := 0, loop := StopRing)
    case StopTakeRing => s.(stopSlots := s.sTxSlots, sTxSlots := 0, stop := Quiesce, loop := QuiesceRing)
    case PollQuiesce => s.(loop := QuiesceRing)
    case CheckRingUsers => s.(loop := if s.ringUsers > 0 then LoopOut else QuiesceNetif)
    case CheckNetifUsers => s.(loop := if s.netifUsers > 0 then LoopOut else QuiesceAsk)
    case AskBarrier => s.(asked := Next32(s.asked), attempts := s.attempts + 1, loop := QuiescePost)
    case PostBarrier(room) =>
      if room then s.(mailbox := s.mailbox + [Barrier], stop := Lwip, loop := LoopOut) else s.(loop := LoopOut)
    case PollLwip => if s.seen != s.asked then s else s.(stop := Finish)
    case PollFinish => s.(loop := FinishDestroy)
    case DestroyNetif => s.(netifs := s.netifs - {s.stopNetif}, stopNetif := 0, loop := FinishFree)
    case FreeRing =>
      s.(rings := if s.stopSlots != 0 then s.rings - {s.stopSlots} else s.rings,
         stopSlots := 0, stop := Idle, loop := LoopOut)
  }

  function Do(s: State, step: Step): State
    requires Enabled(s, step)
  {
    match step
    case OnTx(x) => DoTx(s, x)
    case OnMsg(m) => DoMsg(s, m)
    case OnUsb(u) => DoUsb(s, u)
    case OnUpkeep(k) => DoUpkeep(s, k)
    case OnTeardown(d) => DoTeardown(s, d)
  }

  // ---------------------------------------------------------------------
  // The invariant
  // ---------------------------------------------------------------------

  function TxRing(tx: TxPc): nat {
    match tx
    case TxLoaded(_, ring) => ring
    case TxChecked(_, ring) => ring
    case TxHead(_, ring, _) => ring
    case TxRoom(_, ring, _) => ring
    case TxWritten(_, ring, _) => ring
    case _ => 0
  }

  function DrainRing(usb: UsbPc): nat {
    match usb
    case DrainLoop(ring) => ring
    case DrainTail(ring, _) => ring
    case DrainSlot(ring, _) => ring
    case DrainDone(ring) => ring
    case _ => 0
  }

  predicate Draining(usb: UsbPc) {
    usb.DrainCounted? || usb.DrainLoop? || usb.DrainTail? || usb.DrainSlot? || usb.DrainDone? || usb.DrainLeaving?
  }

  predicate Receiving(usb: UsbPc) { usb.RecvCounted? || usb.RecvLoaded? || usb.RecvLeaving? }

  function RecvNetif(usb: UsbPc): nat { if usb.RecvLoaded? then usb.netif else 0 }

  function RingInBuild(loop: LoopPc): nat {
    match loop
    case BuildRing(ring) => ring
    case BuildTail(ring) => ring
    case BuildHead(ring) => ring
    case BuildNetif(ring, _) => ring
    case _ => 0
  }

  function NetifInBuild(loop: LoopPc): nat {
    match loop
    case BuildNetif(_, netif) => netif
    case BuildPublished(netif) => netif
    case _ => 0
  }

  /** The ring and the interface that were published and are not yet given back. */
  function Ring(s: State): nat { if s.sTxSlots != 0 then s.sTxSlots else s.stopSlots }
  function Netif(s: State): nat { if s.sNetif != 0 then s.sNetif else s.stopNetif }

  /** Each user count is the number of contexts inside. */
  predicate Counted(s: State) {
    && s.ringUsers == (if s.tx != TxOut then 1 else 0) + (if Draining(s.usb) then 1 else 0)
    && s.netifUsers == (if Receiving(s.usb) then 1 else 0)
  }

  predicate BuildPc(loop: LoopPc) { loop.BuildRing? || loop.BuildTail? || loop.BuildHead? || loop.BuildNetif? }

  /** Where the loop task is decides which handles are set. */
  predicate Phased(s: State) {
    match s.stop
    case Idle =>
      && s.stopSlots == 0
      && (if BuildPc(s.loop) then s.sNetif == 0 && s.stopNetif == 0 && s.sTxSlots == 0 && RingInBuild(s.loop) != 0
          else if s.loop.BuildPublished? then s.sNetif == 0 && s.stopNetif == 0 && s.sTxSlots != 0
          else if s.loop == LoopOut then s.stopNetif == 0 && (s.sNetif == 0 <==> s.sTxSlots == 0)
          else if s.loop == StopRing then s.sNetif == 0 && s.stopNetif != 0 && s.sTxSlots != 0
          else s.stopNetif == 0 && s.sNetif != 0 && s.sTxSlots != 0
               && (s.loop == GoingUp || s.loop == Connecting || s.loop == GoingDown || s.loop == StopDown
                   || s.loop == StopNetif))
      && (NetifInBuild(s.loop) != 0 <==> s.loop.BuildNetif? || s.loop.BuildPublished?)
      && (s.sUp ==> s.loop == LoopOut && s.sNetif != 0)
    case _ =>
      && s.sNetif == 0 && s.sTxSlots == 0 && !s.sUp
      && s.stopSlots != 0 && (s.stopNetif != 0 <==> s.loop != FinishFree)
      && (if s.stop == Quiesce then s.loop == LoopOut || s.loop == QuiesceRing || s.loop == QuiesceNetif
                                 || s.loop == QuiesceAsk || s.loop == QuiescePost
          else if s.stop == Lwip then s.loop == LoopOut
          else s.loop == LoopOut || s.loop == FinishDestroy || s.loop == FinishFree)
  }

  /** What is alive is exactly what some handle names, and there is one at most. */
  predicate Owned(s: State) {
    && s.nextId > 0
    && (var n := if Netif(s) != 0 then Netif(s) else NetifInBuild(s.loop);
        n < s.nextId && s.netifs == (if n == 0 then {} else {n}))
    && (var r := if Ring(s) != 0 then Ring(s) else RingInBuild(s.loop);
        r < s.nextId && s.rings.Keys == (if r == 0 then {} else {r}))
    && forall r :: r in s.rings ==> |s.rings[r]| == TX_SLOTS
  }

  predicate RingQuiet(s: State) {
    s.loop == QuiesceNetif || s.loop == QuiesceAsk || s.loop == QuiescePost || s.stop == Lwip || s.stop == Finish
  }

  predicate NetifQuiet(s: State) {
    s.loop == QuiesceAsk || s.loop == QuiescePost || s.stop == Lwip || s.stop == Finish
  }

  /** A context inside holds null or the handle that is still there; once its
      count has been seen at zero with the handles nulled, it holds null. */
  predicate Held(s: State) {
    && (TxRing(s.tx) == 0 || TxRing(s.tx) == Ring(s))
    && (DrainRing(s.usb) == 0 || DrainRing(s.usb) == Ring(s))
    && (RecvNetif(s.usb) == 0 || RecvNetif(s.usb) == Netif(s))
    && (RingQuiet(s) ==> TxRing(s.tx) == 0 && DrainRing(s.usb) == 0)
    && (NetifQuiet(s) ==> RecvNetif(s.usb) == 0)
    && (s.tx.TxChecked? || s.tx.TxHead? || s.tx.TxRoom? || s.tx.TxWritten? ==> TxRing(s.tx) != 0)
    && (s.usb.DrainLoop? || s.usb.DrainTail? || s.usb.DrainSlot? || s.usb.DrainDone? ==> DrainRing(s.usb) != 0)
  }

  predicate OnlyFrames(box: seq<Msg>, netif: nat) {
    forall m :: m in box ==> m.Frame? && m.netif == netif && netif != 0
  }

  predicate BarrierOut(s: State) { Barrier in s.mailbox || s.msg.InBarrier? || s.msg.BarrierRead? }

  /** Every frame waiting is for the interface that is still there. At most one
      barrier is ever out, only in `Lwip`, behind every frame; while it is out
      the two counters differ. */
  predicate Posted(s: State) {
    && s.seen < TWO_TO_32 && s.asked == Wrap(s.seen + s.attempts)
    && (s.msg.Consuming? ==> s.msg.netif == Netif(s) != 0)
    && (s.msg.BarrierRead? ==> s.msg.asked == s.asked)
    && (s.stop == Idle || s.stop == Quiesce ==> OnlyFrames(s.mailbox, Netif(s)) && !BarrierOut(s))
    && (s.stop == Lwip ==>
      if s.msg.InBarrier? || s.msg.BarrierRead? then s.mailbox == [] && Wrap(s.attempts) != 0
      else if s.mailbox != [] then
        Last(s.mailbox) == Barrier && OnlyFrames(Init(s.mailbox), Netif(s)) && Wrap(s.attempts) != 0
      else s.msg == NoMsg && s.attempts == 0)
    && (s.stop == Finish ==> s.mailbox == [] && s.msg == NoMsg)
  }

  predicate Rising(at: seq<nat>, bound: nat) {
    && (forall i :: 0 <= i < |at| ==> at[i] < bound)
    && forall i, j :: 0 <= i < j < |at| ==> at[i] < at[j]
  }

  predicate SentAre(sent: seq<Packet>, at: seq<nat>, accepted: seq<Packet>) {
    && |sent| == |at|
    && forall i :: 0 <= i < |at| ==> at[i] < |accepted| && sent[i] == accepted[at[i]]
  }

  predicate Unread(slots: seq<Packet>, accepted: seq<Packet>, consumed: nat) {
    && |slots| == TX_SLOTS && consumed <= |accepted| <= consumed + TX_SLOTS
    && forall i :: consumed <= i < |accepted| ==> slots[Slot(i)] == accepted[i]
  }

  /** The indices are the history's lengths modulo 2^32, every unread slot holds
      the packet accepted into it, and what was sent rises through what was
      accepted. */
  predicate Flowing(s: State) {
    && (Ring(s) != 0 && Ring(s) in s.rings ==>
      && s.head == Wrap(|s.accepted|) && s.tail == Wrap(s.consumed)
      && Unread(s.rings[Ring(s)], s.accepted, s.consumed)
      && (s.tx.TxHead? || s.tx.TxRoom? || s.tx.TxWritten? ==> s.tx.head == s.head)
      && (s.tx.TxRoom? || s.tx.TxWritten? ==> |s.accepted| < s.consumed + TX_SLOTS)
      && (s.tx.TxWritten? ==> s.rings[Ring(s)][Slot(|s.accepted|)] == s.tx.p)
      && (s.usb.DrainTail? || s.usb.DrainSlot? ==> s.usb.tail == s.tail)
      && (s.usb.DrainSlot? || s.usb.DrainDone? ==> s.consumed < |s.accepted|))
    && (s.loop.BuildTail? ==> s.tail == 0)
    && (s.loop.BuildHead? || s.loop.BuildNetif? ==> s.tail == 0 && s.head == 0)
    && Rising(s.sentAt, s.consumed + if s.usb.DrainDone? then 1 else 0)
    && SentAre(s.sent, s.sentAt, s.accepted)
  }

  predicate Inv(s: State) { Counted(s) && Phased(s) && Owned(s) && Held(s) && Posted(s) && Flowing(s) }

  /** The one thing the counters cannot carry: a barrier posted when the number
      of times one was asked for since the last one ran is a multiple of 2^32. */
  predicate Fresh(s: State, step: Step) { step == OnTeardown(PostBarrier(true)) ==> Wrap(s.attempts) != 0 }

  lemma InvInit(s: State)
    requires Initial(s)
    ensures Inv(s)
  {
  }

  // ---------------------------------------------------------------------
  // Each task keeps each part
  // ---------------------------------------------------------------------

  lemma TxCounts(s: State, step: TxStep)
    requires Counted(s) && TxEnabled(s, step)
    ensures Counted(DoTx(s, step))
  {
  }

  lemma TxPhases(s: State, step: TxStep)
    requires Phased(s) && Posted(s) && TxEnabled(s, step)
    ensures Phased(DoTx(s, step)) && Posted(DoTx(s, step))
  {
    hide OnlyFrames, Wrap, BuildPc, NetifInBuild, RingInBuild;
    TxTouchesOnlyItsOwn(s, step);
  }

  lemma TxOwnsWrite(s: State)
    requires Owned(s) && TxEnabled(s, TxWrite)
    ensures Owned(DoTx(s, TxWrite))
  {
    hide NetifInBuild, RingInBuild;
    assert DoTx(s, TxWrite).rings.Keys == s.rings.Keys;
  }

  lemma TxOwns(s: State, step: TxStep)
    requires Owned(s) && TxEnabled(s, step)
    ensures Owned(DoTx(s, step))
  {
    hide NetifInBuild, RingInBuild, Wrap, Gap, Next32, Slot;
    if step == TxWrite {
      TxOwnsWrite(s);
    } else {
      TxTouchesOnlyItsOwn(s, step);
      assert DoTx(s, step).rings == s.rings;
    }
  }

  lemma TxTouchesOnlyItsOwn(s: State, step: TxStep)
    requires TxEnabled(s, step)
    ensures var t := DoTx(s, step);
      && t == s.(ringUsers := t.ringUsers, head := t.head, tx := t.tx, rings := t.rings, accepted := t.accepted)
  {
    hide Wrap, Gap, Next32, Slot;
  }

  /** Only loading the handle changes what a context holds, and then it holds what is
      published. */
  lemma TxHolds(s: State, step: TxStep)
    requires Held(s) && Phased(s) && TxEnabled(s, step)
    ensures Held(DoTx(s, step))
  {
    hide Wrap, Gap, Next32, Slot, Phased, RecvNetif, DrainRing, RingQuiet, NetifQuiet;
    QuietIsTakenBack(s);
    TxTouchesOnlyItsOwn(s, step);
    SameQuiet(s, DoTx(s, step));
  }

  /** By then both handles have been nulled. */
  lemma QuietIsTakenBack(s: State)
    requires Phased(s)
    ensures RingQuiet(s) || NetifQuiet(s) ==> s.sTxSlots == 0 && s.sNetif == 0
    ensures s.sTxSlots != 0 ==> Ring(s) == s.sTxSlots
  {
  }

  lemma SameQuiet(s: State, t: State)
    requires t.loop == s.loop && t.stop == s.stop
    ensures RingQuiet(t) == RingQuiet(s) && NetifQuiet(t) == NetifQuiet(s)
  {
  }

  // Indices that wrap at 2^32, for a ring whose size divides it.

  lemma WrappedSlot(i: nat)
    ensures Slot(Wrap(i)) == Slot(i) < TX_SLOTS
    ensures Next32(Wrap(i)) == Wrap(i + 1)
  {
    var q, r := i / TWO_TO_32, i % TWO_TO_32;
    assert i == q * TWO_TO_32 + r;
    SlotOfSum(q * 0x4000_0000, r);
    WrapOfSum(q, r);
    WrapOfSum(q, r + 1);
  }

  lemma SlotOfSum(k: nat, r: nat)
    ensures Slot(4 * k + r) == Slot(r) < TX_SLOTS
  {
  }

  lemma WrapOfSum(q: nat, r: nat)
    ensures Wrap(q * TWO_TO_32 + r) == Wrap(r)
  {
  }

  lemma WrappedDistance(h: nat, t: nat)
    requires t <= h <= t + TX_SLOTS
    ensures Gap(Wrap(h), Wrap(t)) == h - t
    ensures Wrap(h) == Wrap(t) <==> h == t
  {
  }

  lemma SlotsApart(i: nat, j: nat)
    requires i < j < i + TX_SLOTS
    ensures Slot(i) != Slot(j)
  {
  }

  /** A packet written where the next one goes overwrites nothing unread. */
  lemma UnreadWrite(slots: seq<Packet>, accepted: seq<Packet>, consumed: nat, p: Packet)
    requires Unread(slots, accepted, consumed) && |accepted| < consumed + TX_SLOTS
    ensures Unread(slots[Slot(|accepted|) := p], accepted, consumed)
  {
    forall i | consumed <= i < |accepted|
      ensures Slot(i) != Slot(|accepted|)
    {
      SlotsApart(i, |accepted|);
    }
    hide Slot;
  }

  lemma UnreadPublish(slots: seq<Packet>, accepted: seq<Packet>, consumed: nat, p: Packet)
    requires Unread(slots, accepted, consumed) && |accepted| < consumed + TX_SLOTS
    requires slots[Slot(|accepted|)] == p
    ensures Unread(slots, accepted + [p], consumed)
  {
    hide Slot;
  }

  lemma SentGrow(sent: seq<Packet>, at: seq<nat>, accepted: seq<Packet>, p: Packet)
    requires SentAre(sent, at, accepted)
    ensures SentAre(sent, at, accepted + [p])
  {
  }

  /** Past its checks the producer works in the ring that is there. */
  lemma TxHasRing(s: State)
    requires Held(s) && Owned(s) && (s.tx.TxChecked? || s.tx.TxHead? || s.tx.TxRoom? || s.tx.TxWritten?)
    ensures s.tx.ring == Ring(s) != 0 && Ring(s) in s.rings && |s.rings[Ring(s)]| == TX_SLOTS
  {
    hide RingInBuild, NetifInBuild, RingQuiet, NetifQuiet;
  }

  /** With a ring published or being taken back, none is being built. */
  lemma RingNotBuilding(s: State)
    requires Phased(s) && Ring(s) != 0
    ensures !s.loop.BuildTail? && !s.loop.BuildHead? && !s.loop.BuildNetif?
  {
  }

  lemma TxFlowsRoom(s: State)
    requires Flowing(s) && Held(s) && Owned(s) && TxEnabled(s, TxLoadTail)
    ensures Flowing(DoTx(s, TxLoadTail))
  {
    hide Unread, Rising, SentAre, Slot, Wrap, Gap, Held, Owned;
    TxHasRing(s);
    UnreadBounds(s.rings[Ring(s)], s.accepted, s.consumed);
    WrappedDistance(|s.accepted|, s.consumed);
    var t := DoTx(s, TxLoadTail);
    assert t == s.(tx := t.tx);
  }

  lemma TxFlowsWrite(s: State)
    requires Flowing(s) && Held(s) && Owned(s) && TxEnabled(s, TxWrite)
    ensures Flowing(DoTx(s, TxWrite))
  {
    hide Unread, Rising, SentAre, Slot, Wrap, Held, Owned;
    TxHasRing(s);
    UnreadBounds(s.rings[Ring(s)], s.accepted, s.consumed);
    WrappedSlot(|s.accepted|);
    UnreadWrite(s.rings[Ring(s)], s.accepted, s.consumed, s.tx.p);
  }

  lemma TxFlowsPublish(s: State)
    requires Flowing(s) && Held(s) && Owned(s) && Phased(s) && TxEnabled(s, TxPublish)
    ensures Flowing(DoTx(s, TxPublish))
  {
    hide Unread, Rising, SentAre, Slot, Wrap, Next32, Held, Owned, Phased;
    TxHasRing(s);
    RingNotBuilding(s);
    UnreadBounds(s.rings[Ring(s)], s.accepted, s.consumed);
    WrappedSlot(|s.accepted|);
    UnreadPublish(s.rings[Ring(s)], s.accepted, s.consumed, s.tx.p);
    SentGrow(s.sent, s.sentAt, s.accepted, s.tx.p);
    assert |s.accepted + [s.tx.p]| == |s.accepted| + 1;
  }

  lemma TxFlowsRest(s: State, step: TxStep)
    requires Flowing(s) && TxEnabled(s, step)
    requires !step.TxLoadTail? && !step.TxWrite? && !step.TxPublish?
    ensures Flowing(DoTx(s, step))
  {
    hide Unread, Rising, SentAre, Slot, Wrap;
  }

  lemma TxFlows(s: State, step: TxStep)
    requires Flowing(s) && Held(s) && Owned(s) && Phased(s) && TxEnabled(s, step)
    ensures Flowing(DoTx(s, step))
  {
    hide Flowing, Held, Owned, Phased, TxEnabled, DoTx;
    match step
    case TxLoadTail => TxFlowsRoom(s);
    case TxWrite => TxFlowsWrite(s);
    case TxPublish => TxFlowsPublish(s);
    case _ => TxFlowsRest(s, step);
  }

  lemma TxKeeps(s: State, step: TxStep)
    requires Inv(s) && TxEnabled(s, step)
    ensures Inv(DoTx(s, step))
  {
    hide Counted, Phased, Owned, Held, Posted, Flowing, DoTx, TxEnabled;
    TxCounts(s, step);
    TxPhases(s, step);
    TxOwns(s, step);
    TxHolds(s, step);
    TxFlows(s, step);
  }

  lemma UnreadBounds(slots: seq<Packet>, accepted: seq<Packet>, consumed: nat)
    requires Unread(slots, accepted, consumed)
    ensures |slots| == TX_SLOTS && consumed <= |accepted| <= consumed + TX_SLOTS
  {
  }

  // lwIP's mailbox

  lemma {:induction false} FramesDrop(box: seq<Msg>, netif: nat)
    requires OnlyFrames(box, netif) && box != []
    ensures box[0] == Frame(netif) && netif != 0 && OnlyFrames(box[1..], netif)
  {
    assert box[0] in box;
  }

  lemma FramesPush(box: seq<Msg>, netif: nat)
    requires OnlyFrames(box, netif) && netif != 0
    ensures OnlyFrames(box + [Frame(netif)], netif)
  {
  }

  lemma BarrierWaits(seen: nat, attempts: nat)
    requires seen < TWO_TO_32
    ensures Wrap(seen + attempts) == seen <==> Wrap(attempts) == 0
  {
  }

  lemma MsgPosts(s: State, step: MsgStep)
    requires Posted(s) && Phased(s) && MsgEnabled(s, step)
    ensures Posted(DoMsg(s, step))
  {
  }

  lemma MsgTouchesOnlyItsOwn(s: State, step: MsgStep)
    requires MsgEnabled(s, step)
    ensures var t := DoMsg(s, step);
      t == s.(mailbox := t.mailbox, msg := t.msg, seen := t.seen, attempts := t.attempts)
  {
  }

  lemma MsgLeaves(s: State, step: MsgStep)
    requires Counted(s) && Phased(s) && Owned(s) && MsgEnabled(s, step)
    ensures var t := DoMsg(s, step); Counted(t) && Phased(t) && Owned(t)
  {
    hide DoMsg, MsgEnabled, BuildPc, NetifInBuild, RingInBuild;
    MsgTouchesOnlyItsOwn(s, step);
  }

  lemma MsgLeavesHolders(s: State, step: MsgStep)
    requires Held(s) && Flowing(s) && MsgEnabled(s, step)
    ensures var t := DoMsg(s, step); Held(t) && Flowing(t)
  {
    hide DoMsg, MsgEnabled, Unread, Rising, SentAre, Slot, Wrap;
    MsgTouchesOnlyItsOwn(s, step);
  }

  lemma MsgKeeps(s: State, step: MsgStep)
    requires Inv(s) && MsgEnabled(s, step)
    ensures Inv(DoMsg(s, step))
  {
    hide Counted, Phased, Owned, Held, Posted, Flowing, DoMsg, MsgEnabled;
    MsgPosts(s, step);
    MsgLeaves(s, step);
    MsgLeavesHolders(s, step);
  }

  // The USB task

  lemma UsbCounts(s: State, step: UsbStep)
    requires Counted(s) && UsbEnabled(s, step)
    ensures Counted(DoUsb(s, step))
  {
  }

  lemma UsbLeavesLoop(s: State, step: UsbStep)
    requires Phased(s) && Owned(s) && UsbEnabled(s, step)
    ensures Phased(DoUsb(s, step)) && Owned(DoUsb(s, step))
  {
    hide DoUsb, UsbEnabled, BuildPc, NetifInBuild, RingInBuild;
    UsbTouchesOnlyItsOwn(s, step);
  }

  lemma UsbHolds(s: State, step: UsbStep)
    requires Held(s) && Phased(s) && UsbEnabled(s, step)
    ensures Held(DoUsb(s, step))
  {
    hide Wrap, Next32, Slot, Phased, TxRing, RingQuiet, NetifQuiet;
    QuietIsTakenBack(s);
    UsbTouchesOnlyItsOwn(s, step);
    SameQuiet(s, DoUsb(s, step));
  }

  lemma UsbTouchesOnlyItsOwn(s: State, step: UsbStep)
    requires UsbEnabled(s, step)
    ensures var t := DoUsb(s, step);
      && t == s.(ringUsers := t.ringUsers, netifUsers := t.netifUsers, tail := t.tail, usb := t.usb,
                 mailbox := t.mailbox, consumed := t.consumed, sent := t.sent, sentAt := t.sentAt)
      && (t.mailbox == s.mailbox
          || (step == RecvPost(true) && s.usb.RecvLoaded? && s.usb.netif != 0
              && t.mailbox == s.mailbox + [Frame(s.usb.netif)]))
  {
    hide Wrap, Next32, Slot;
  }

  /** What is posted is for the interface that is there, and before any barrier. */
  lemma RecvPosts(s: State)
    requires Posted(s) && Held(s) && Phased(s) && s.usb.RecvLoaded? && s.usb.netif != 0
    ensures OnlyFrames(s.mailbox + [Frame(s.usb.netif)], Netif(s)) && !BarrierOut(s)
    ensures s.stop == Idle || s.stop == Quiesce
  {
    hide Wrap, OnlyFrames, BuildPc, NetifInBuild, RingInBuild;
    FramesPush(s.mailbox, s.usb.netif);
  }

  lemma UsbPosts(s: State, step: UsbStep)
    requires Posted(s) && Held(s) && Phased(s) && UsbEnabled(s, step)
    ensures Posted(DoUsb(s, step))
  {
    hide OnlyFrames, Wrap, Held, Phased, UsbEnabled, DoUsb;
    UsbTouchesOnlyItsOwn(s, step);
    if step.RecvPost? && s.usb.RecvLoaded? && s.usb.netif != 0 { RecvPosts(s); }
  }

  lemma UnreadAdvance(slots: seq<Packet>, accepted: seq<Packet>, consumed: nat)
    requires Unread(slots, accepted, consumed) && consumed < |accepted|
    ensures Unread(slots, accepted, consumed + 1)
    ensures slots[Slot(consumed)] == accepted[consumed]
  {
    hide Slot;
  }

  lemma SentSend(sent: seq<Packet>, at: seq<nat>, accepted: seq<Packet>, consumed: nat)
    requires SentAre(sent, at, accepted) && Rising(at, consumed) && consumed < |accepted|
    ensures SentAre(sent + [accepted[consumed]], at + [consumed], accepted)
    ensures Rising(at + [consumed], consumed + 1)
  {
  }

  lemma RisingMore(at: seq<nat>, bound: nat)
    requires Rising(at, bound)
    ensures Rising(at, bound + 1)
  {
  }

  /** Past its check the drain works in the ring that is there. */
  lemma DrainHasRing(s: State)
    requires Held(s) && Owned(s) && (s.usb.DrainLoop? || s.usb.DrainTail? || s.usb.DrainSlot? || s.usb.DrainDone?)
    ensures s.usb.ring == Ring(s) != 0 && Ring(s) in s.rings && |s.rings[Ring(s)]| == TX_SLOTS
  {
    hide RingInBuild, NetifInBuild, RingQuiet, NetifQuiet;
  }

  lemma DrainFlowsHead(s: State)
    requires Flowing(s) && Held(s) && Owned(s) && UsbEnabled(s, DrainLoadHead)
    ensures Flowing(DoUsb(s, DrainLoadHead))
  {
    hide Unread, Rising, SentAre, Slot, Wrap, Gap, Held, Owned;
    DrainHasRing(s);
    UnreadBounds(s.rings[Ring(s)], s.accepted, s.consumed);
    WrappedDistance(|s.accepted|, s.consumed);
  }

  lemma DrainFlowsSend(s: State)
    requires Flowing(s) && Held(s) && Owned(s) && UsbEnabled(s, DrainSend)
    ensures Flowing(DoUsb(s, DrainSend))
  {
    hide Unread, Rising, SentAre, Slot, Wrap, Held, Owned;
    DrainHasRing(s);
    UnreadBounds(s.rings[Ring(s)], s.accepted, s.consumed);
    WrappedSlot(s.consumed);
    UnreadAdvance(s.rings[Ring(s)], s.accepted, s.consumed);
    SentSend(s.sent, s.sentAt, s.accepted, s.consumed);
  }

  lemma DrainFlowsDrop(s: State, stale: bool)
    requires Flowing(s) && UsbEnabled(s, DrainDrop(stale))
    ensures Flowing(DoUsb(s, DrainDrop(stale)))
  {
    hide Unread, SentAre, Rising, Slot, Wrap;
    RisingMore(s.sentAt, s.consumed);
  }

  lemma DrainFlowsAdvance(s: State)
    requires Flowing(s) && Held(s) && Owned(s) && Phased(s) && UsbEnabled(s, DrainAdvance)
    ensures Flowing(DoUsb(s, DrainAdvance))
  {
    hide Unread, Rising, SentAre, Slot, Wrap, Next32, Held, Owned, Phased;
    DrainHasRing(s);
    RingNotBuilding(s);
    UnreadBounds(s.rings[Ring(s)], s.accepted, s.consumed);
    WrappedSlot(s.consumed);
    UnreadAdvance(s.rings[Ring(s)], s.accepted, s.consumed);
  }

  lemma UsbFlowsRest(s: State, step: UsbStep)
    requires Flowing(s) && UsbEnabled(s, step)
    requires !step.DrainLoadHead? && !step.DrainSend? && !step.DrainAdvance? && !step.DrainDrop?
    ensures Flowing(DoUsb(s, step))
  {
    hide Unread, Rising, SentAre, Slot, Wrap;
  }

  lemma UsbFlows(s: State, step: UsbStep)
    requires Flowing(s) && Held(s) && Owned(s) && Phased(s) && UsbEnabled(s, step)
    ensures Flowing(DoUsb(s, step))
  {
    hide Flowing, Held, Owned, Phased, UsbEnabled, DoUsb;
    match step
    case DrainLoadHead => DrainFlowsHead(s);
    case DrainSend => DrainFlowsSend(s);
    case DrainDrop(stale) => DrainFlowsDrop(s, stale);
    case DrainAdvance => DrainFlowsAdvance(s);
    case _ => UsbFlowsRest(s, step);
  }

  lemma UsbKeeps(s: State, step: UsbStep)
    requires Inv(s) && UsbEnabled(s, step)
    ensures Inv(DoUsb(s, step))
  {
    hide Counted, Phased, Owned, Held, Posted, Flowing, DoUsb, UsbEnabled;
    UsbCounts(s, step);
    UsbLeavesLoop(s, step);
    UsbHolds(s, step);
    UsbPosts(s, step);
    UsbFlows(s, step);
  }

  // The loop task, building, coming up and going down

  lemma UpkeepTouchesOnlyItsOwn(s: State, step: UpkeepStep)
    requires UpkeepEnabled(s, step)
    ensures var t := DoUpkeep(s, step);
      && t.tx == s.tx && t.usb == s.usb && t.msg == s.msg && t.mailbox == s.mailbox
      && t.ringUsers == s.ringUsers && t.netifUsers == s.netifUsers
      && t.stop == s.stop && t.stopNetif == s.stopNetif && t.stopSlots == s.stopSlots
      && t.asked == s.asked && t.seen == s.seen && t.attempts == s.attempts
  {
  }

  lemma UpkeepCounts(s: State, step: UpkeepStep)
    requires Counted(s) && UpkeepEnabled(s, step)
    ensures Counted(DoUpkeep(s, step))
  {
    hide DoUpkeep, UpkeepEnabled, Draining, Receiving;
    UpkeepTouchesOnlyItsOwn(s, step);
  }

  lemma UpkeepPhases(s: State, step: UpkeepStep)
    requires Phased(s) && Owned(s) && UpkeepEnabled(s, step)
    ensures Phased(DoUpkeep(s, step))
  {
    hide Wrap;
  }

  lemma BuildOwns(s: State, step: UpkeepStep)
    requires Phased(s) && Owned(s) && UpkeepEnabled(s, step) && (step.BuildStart? || step.BuildNew?)
    ensures Owned(DoUpkeep(s, step))
  {
    hide Wrap;
  }

  lemma UpkeepOwns(s: State, step: UpkeepStep)
    requires Phased(s) && Owned(s) && UpkeepEnabled(s, step)
    ensures Owned(DoUpkeep(s, step))
  {
    hide Wrap;
    if step.BuildStart? || step.BuildNew? {
      hide Phased, Owned, DoUpkeep, UpkeepEnabled;
      BuildOwns(s, step);
    } else {
      var t := DoUpkeep(s, step);
      assert t.netifs == s.netifs && t.rings == s.rings && t.nextId == s.nextId;
    }
  }

  lemma UpkeepHolds(s: State, step: UpkeepStep)
    requires Held(s) && Phased(s) && UpkeepEnabled(s, step)
    ensures Held(DoUpkeep(s, step))
  {
    hide OnlyFrames, Wrap;
  }

  lemma FramesOfNone(box: seq<Msg>)
    ensures OnlyFrames(box, 0) <==> box == []
    ensures box == [] ==> forall n :: OnlyFrames(box, n)
  {
    if box != [] { assert box[0] in box; }
  }

  lemma UpkeepPosts(s: State, step: UpkeepStep)
    requires Posted(s) && Phased(s) && UpkeepEnabled(s, step)
    ensures Posted(DoUpkeep(s, step))
  {
    hide OnlyFrames, Wrap;
    FramesOfNone(s.mailbox);
  }

  lemma EmptyRing(slots: seq<Packet>)
    requires |slots| == TX_SLOTS
    ensures Unread(slots, [], 0) && Rising([], 0) && SentAre([], [], []) && Wrap(0) == 0
  {
  }

  /** A ring is published only when nobody holds one, with both indices at zero. */
  lemma PublishFlows(s: State)
    requires Flowing(s) && Held(s) && Owned(s) && Phased(s) && UpkeepEnabled(s, BuildPublishRing)
    ensures Flowing(DoUpkeep(s, BuildPublishRing))
  {
    hide Unread, Rising, SentAre, Slot, Wrap;
    EmptyRing(s.rings[s.loop.ring]);
  }

  lemma BuildFlows(s: State, step: UpkeepStep)
    requires Flowing(s) && Phased(s) && UpkeepEnabled(s, step) && step != BuildPublishRing
    ensures Flowing(DoUpkeep(s, step))
  {
    hide Unread, Rising, SentAre, Slot, Wrap;
  }

  lemma UpkeepFlows(s: State, step: UpkeepStep)
    requires Flowing(s) && Held(s) && Owned(s) && Phased(s) && UpkeepEnabled(s, step)
    ensures Flowing(DoUpkeep(s, step))
  {
    hide Flowing, Held, Owned, Phased, DoUpkeep, UpkeepEnabled;
    if step == BuildPublishRing { PublishFlows(s); } else { BuildFlows(s, step); }
  }

  lemma UpkeepKeeps(s: State, step: UpkeepStep)
    requires Inv(s) && UpkeepEnabled(s, step)
    ensures Inv(DoUpkeep(s, step))
  {
    hide Counted, Phased, Owned, Held, Posted, Flowing, DoUpkeep, UpkeepEnabled;
    UpkeepCounts(s, step);
    UpkeepPhases(s, step);
    UpkeepOwns(s, step);
    UpkeepHolds(s, step);
    UpkeepPosts(s, step);
    UpkeepFlows(s, step);
  }

  // The loop task, taking apart

  lemma TeardownTouchesOnlyItsOwn(s: State, step: TeardownStep)
    requires TeardownEnabled(s, step)
    ensures var t := DoTeardown(s, step);
      && t.tx == s.tx && t.usb == s.usb && t.msg == s.msg && t.ringUsers == s.ringUsers && t.netifUsers == s.netifUsers
      && t.head == s.head && t.tail == s.tail && t.nextId == s.nextId && t.seen == s.seen
      && t.accepted == s.accepted && t.consumed == s.consumed && t.sent == s.sent && t.sentAt == s.sentAt
      && (step != DestroyNetif ==> t.netifs == s.netifs) && (step != FreeRing ==> t.rings == s.rings)
  {
    hide Wrap, Next32;
  }

  lemma TeardownCounts(s: State, step: TeardownStep)
    requires Counted(s) && TeardownEnabled(s, step)
    ensures Counted(DoTeardown(s, step))
  {
    hide DoTeardown, TeardownEnabled, Draining, Receiving;
    TeardownTouchesOnlyItsOwn(s, step);
  }

  lemma TeardownPhases(s: State, step: TeardownStep)
    requires Phased(s) && TeardownEnabled(s, step)
    ensures Phased(DoTeardown(s, step))
  {
    hide Phased, TeardownEnabled, DoTeardown;
    if s.stop == Idle { StopPhases(s, step); } else { RunningPhases(s, step); }
  }

  lemma StopPhases(s: State, step: TeardownStep)
    requires Phased(s) && TeardownEnabled(s, step) && s.stop == Idle
    ensures Phased(DoTeardown(s, step))
  {
    hide Wrap, Next32;
  }

  lemma RunningPhases(s: State, step: TeardownStep)
    requires Phased(s) && TeardownEnabled(s, step) && s.stop != Idle
    ensures Phased(DoTeardown(s, step))
  {
    hide Wrap, Next32;
  }

  /** Handles change hands inside the loop task, and until the end name the same. */
  lemma TeardownRenames(s: State, step: TeardownStep)
    requires Phased(s) && TeardownEnabled(s, step)
    ensures var t := DoTeardown(s, step);
      && RingInBuild(t.loop) == RingInBuild(s.loop) == 0 && NetifInBuild(t.loop) == NetifInBuild(s.loop) == 0
      && (step != FreeRing ==> Ring(t) == Ring(s) != 0)
      && (step != DestroyNetif && step != FreeRing ==> Netif(t) == Netif(s) != 0)
      && (step == DestroyNetif ==> Netif(t) == 0)
      && (step == FreeRing ==> Ring(t) == 0 && Netif(t) == Netif(s) == 0)
  {
    hide Wrap, Next32;
  }

  lemma FreeOwns(s: State, step: TeardownStep)
    requires Phased(s) && Owned(s) && TeardownEnabled(s, step) && (step == DestroyNetif || step == FreeRing)
    ensures Owned(DoTeardown(s, step))
  {
    hide RingInBuild, NetifInBuild, Wrap, Next32;
    TeardownRenames(s, step);
  }

  lemma TeardownOwns(s: State, step: TeardownStep)
    requires Phased(s) && Owned(s) && TeardownEnabled(s, step)
    ensures Owned(DoTeardown(s, step))
  {
    if step == DestroyNetif || step == FreeRing {
      hide Phased, Owned, DoTeardown, TeardownEnabled;
      FreeOwns(s, step);
    } else {
      hide Phased, DoTeardown, TeardownEnabled, Ring, Netif, RingInBuild, NetifInBuild;
      TeardownTouchesOnlyItsOwn(s, step);
      TeardownRenames(s, step);
    }
  }

  /** Each count is seen at zero before anything after it is reached. */
  lemma TeardownQuiets(s: State, step: TeardownStep)
    requires Phased(s) && TeardownEnabled(s, step)
    ensures var t := DoTeardown(s, step);
      && (RingQuiet(t) ==> RingQuiet(s) || s.ringUsers == 0)
      && (NetifQuiet(t) ==> NetifQuiet(s) || s.netifUsers == 0)
      && (step == FreeRing ==> RingQuiet(s) && NetifQuiet(s))
      && (step == DestroyNetif ==> NetifQuiet(s))
  {
    hide Wrap, Next32;
  }

  lemma NobodyInside(s: State)
    requires Counted(s)
    ensures s.ringUsers == 0 ==> TxRing(s.tx) == 0 && DrainRing(s.usb) == 0
    ensures s.netifUsers == 0 ==> RecvNetif(s.usb) == 0
  {
  }

  lemma TeardownHolds(s: State, step: TeardownStep)
    requires Held(s) && Phased(s) && Counted(s) && TeardownEnabled(s, step)
    ensures Held(DoTeardown(s, step))
  {
    hide Phased, Counted, DoTeardown, TeardownEnabled, Ring, Netif, RingQuiet, NetifQuiet, TxRing, DrainRing, RecvNetif;
    TeardownTouchesOnlyItsOwn(s, step);
    TeardownRenames(s, step);
    TeardownQuiets(s, step);
    NobodyInside(s);
  }

  lemma AskPosts(s: State)
    requires Posted(s) && Phased(s) && TeardownEnabled(s, AskBarrier)
    ensures Posted(DoTeardown(s, AskBarrier))
  {
    hide OnlyFrames, Wrap, Next32;
    WrappedSlot(s.seen + s.attempts);
  }

  lemma PostPosts(s: State)
    requires Posted(s) && Phased(s) && TeardownEnabled(s, PostBarrier(true)) && Wrap(s.attempts) != 0
    ensures Posted(DoTeardown(s, PostBarrier(true)))
  {
    hide OnlyFrames, Wrap;
    var box := s.mailbox + [Barrier];
    assert Init(box) == s.mailbox && Last(box) == Barrier;
  }

  /** When the counters agree the barrier has run, and everything before it. */
  lemma LwipPosts(s: State)
    requires Posted(s) && Phased(s) && TeardownEnabled(s, PollLwip)
    ensures Posted(DoTeardown(s, PollLwip))
  {
    hide OnlyFrames, Wrap;
    BarrierWaits(s.seen, s.attempts);
  }

  lemma RestPosts(s: State, step: TeardownStep)
    requires Posted(s) && Phased(s) && TeardownEnabled(s, step)
    requires step != PostBarrier(true) && step != AskBarrier && step != PollLwip
    ensures Posted(DoTeardown(s, step))
  {
    hide OnlyFrames, Wrap;
    FramesOfNone(s.mailbox);
  }

  lemma TeardownPosts(s: State, step: TeardownStep)
    requires Posted(s) && Phased(s) && TeardownEnabled(s, step)
    requires step == PostBarrier(true) ==> Wrap(s.attempts) != 0
    ensures Posted(DoTeardown(s, step))
  {
    hide Posted, Phased, DoTeardown, TeardownEnabled, Wrap;
    if step == PostBarrier(true) { PostPosts(s); }
    else if step == AskBarrier { AskPosts(s); }
    else if step == PollLwip { LwipPosts(s); }
    else { RestPosts(s, step); }
  }

  lemma TeardownFlows(s: State, step: TeardownStep)
    requires Flowing(s) && Phased(s) && TeardownEnabled(s, step)
    ensures Flowing(DoTeardown(s, step))
  {
    hide Unread, Rising, SentAre, Slot, Wrap, Ring, Phased, TeardownEnabled, DoTeardown;
    TeardownTouchesOnlyItsOwn(s, step);
    TeardownRenames(s, step);
    TeardownBuildsNothing(s, step);
  }

  lemma TeardownBuildsNothing(s: State, step: TeardownStep)
    requires TeardownEnabled(s, step)
    ensures var l := DoTeardown(s, step).loop; !l.BuildTail? && !l.BuildHead? && !l.BuildNetif?
  {
    hide Wrap, Next32;
  }

  lemma TeardownKeeps(s: State, step: TeardownStep)
    requires Inv(s) && TeardownEnabled(s, step) && Fresh(s, OnTeardown(step))
    ensures Inv(DoTeardown(s, step))
  {
    hide Counted, Phased, Owned, Held, Posted, Flowing, DoTeardown, TeardownEnabled, Wrap;
    TeardownCounts(s, step);
    TeardownPhases(s, step);
    TeardownOwns(s, step);
    TeardownHolds(s, step);
    TeardownPosts(s, step);
    TeardownFlows(s, step);
  }

  lemma StepKeeps(s: State, step: Step)
    requires Inv(s) && Enabled(s, step) && Fresh(s, step)
    ensures Inv(Do(s, step))
  {
    hide Inv, DoTx, DoMsg, DoUsb, DoUpkeep, DoTeardown, Fresh;
    hide TxEnabled, MsgEnabled, UsbEnabled, UpkeepEnabled, TeardownEnabled;
    match step
    case OnTx(x) => TxKeeps(s, x);
    case OnMsg(m) => MsgKeeps(s, m);
    case OnUsb(u) => UsbKeeps(s, u);
    case OnUpkeep(k) => UpkeepKeeps(s, k);
    case OnTeardown(d) => TeardownKeeps(s, d);
  }

  // ---------------------------------------------------------------------
  // What the invariant buys, at every step
  // ---------------------------------------------------------------------

  /** No step reads or writes a freed ring or calls a destroyed interface. */
  lemma TouchesOnlyLive(s: State, step: Step)
    requires Inv(s) && Enabled(s, step)
    ensures RingsTouched(s, step) <= s.rings.Keys
    ensures NetifsTouched(s, step) <= s.netifs
  {
    hide Counted, Flowing, OnlyFrames, Wrap;
  }

  /** Nothing else is written, read or freed: a ring that is not touched stays as it is,
      what is sent is read from a ring that is, and what is destroyed is touched. */
  lemma TouchesAreAll(s: State, step: Step)
    requires Inv(s) && Enabled(s, step)
    ensures forall r :: r in s.rings && r !in RingsTouched(s, step) ==>
      r in Do(s, step).rings && Do(s, step).rings[r] == s.rings[r]
    ensures Do(s, step).sent != s.sent ==> step == OnUpkeep(BuildPublishRing) || Ring(s) in RingsTouched(s, step)
    ensures forall n :: n in s.netifs && n !in Do(s, step).netifs ==> n in NetifsTouched(s, step)
    ensures forall n :: Frame(n) in Do(s, step).mailbox && Frame(n) !in s.mailbox ==> n in NetifsTouched(s, step)
  {
    hide Inv, DoTx, DoMsg, DoUsb, DoUpkeep, DoTeardown;
    hide TxEnabled, MsgEnabled, UsbEnabled, UpkeepEnabled, TeardownEnabled;
    match step
    case OnTx(x) => TxTouchesOnlyItsOwn(s, x); TxTouchesAll(s, x);
    case OnMsg(m) => MsgTouchesOnlyItsOwn(s, m); MsgTouchesAll(s, m);
    case OnUsb(u) => UsbTouchesOnlyItsOwn(s, u); UsbTouchesAll(s, u);
    case OnUpkeep(k) => UpkeepTouchesAll(s, k);
    case OnTeardown(d) => TeardownTouchesOnlyItsOwn(s, d); TeardownTouchesAll(s, d);
  }

  lemma TxTouchesAll(s: State, step: TxStep)
    requires TxEnabled(s, step)
    ensures forall r :: r in s.rings && r !in RingsTouched(s, OnTx(step)) ==>
      r in DoTx(s, step).rings && DoTx(s, step).rings[r] == s.rings[r]
  {
    hide Slot, Wrap, Gap, Next32;
  }

  lemma MsgTouchesAll(s: State, step: MsgStep)
    requires MsgEnabled(s, step)
    ensures forall m :: m in DoMsg(s, step).mailbox ==> m in s.mailbox
  {
  }

  lemma UsbTouchesAll(s: State, step: UsbStep)
    requires Inv(s) && UsbEnabled(s, step)
    ensures DoUsb(s, step).sent != s.sent ==> Ring(s) in RingsTouched(s, OnUsb(step))
    ensures forall n :: Frame(n) in DoUsb(s, step).mailbox && Frame(n) !in s.mailbox ==>
      n in NetifsTouched(s, OnUsb(step))
  {
    hide Counted, Phased, Posted, Flowing, Slot, Wrap, Next32;
    if s.usb.DrainSlot? { DrainHasRing(s); }
  }

  lemma UpkeepTouchesAll(s: State, step: UpkeepStep)
    requires Inv(s) && UpkeepEnabled(s, step)
    ensures var t := DoUpkeep(s, step);
      && (forall r :: r in s.rings && r !in RingsTouched(s, OnUpkeep(step)) ==>
            r in t.rings && t.rings[r] == s.rings[r])
      && (t.sent != s.sent ==> step == BuildPublishRing) && t.mailbox == s.mailbox && s.netifs <= t.netifs
  {
    hide Counted, Held, Posted, Flowing;
  }

  lemma TeardownTouchesAll(s: State, step: TeardownStep)
    requires TeardownEnabled(s, step)
    ensures var t := DoTeardown(s, step);
      && (forall r :: r in s.rings && r !in RingsTouched(s, OnTeardown(step)) ==>
            r in t.rings && t.rings[r] == s.rings[r])
      && (forall n :: n in s.netifs && n !in t.netifs ==> n in NetifsTouched(s, OnTeardown(step)))
      && (forall n :: Frame(n) in t.mailbox ==> Frame(n) in s.mailbox)
  {
    hide Next32;
  }

  /** Whatever lwIP was given for an interface has been consumed before the
      interface is destroyed, and nobody is left holding its handle. */
  lemma ConsumedBeforeDestroyed(s: State)
    requires Inv(s) && Enabled(s, OnTeardown(DestroyNetif))
    ensures s.stopNetif in s.netifs
    ensures Frame(s.stopNetif) !in s.mailbox && s.msg != Consuming(s.stopNetif)
    ensures RecvNetif(s.usb) != s.stopNetif && s.sNetif != s.stopNetif
  {
    hide Counted, Flowing, OnlyFrames, Wrap;
  }

  lemma NobodyInsideWhenFreed(s: State)
    requires Inv(s) && Enabled(s, OnTeardown(FreeRing))
    ensures s.stopSlots in s.rings && s.sTxSlots != s.stopSlots
    ensures TxRing(s.tx) != s.stopSlots && DrainRing(s.usb) != s.stopSlots
  {
    hide Counted, Flowing, Posted;
  }

  lemma AtMostOne(s: State)
    requires Inv(s)
    ensures |s.netifs| <= 1 && |s.rings| <= 1
  {
    hide Counted, Flowing, Posted, Held, Phased;
    var r := if Ring(s) != 0 then Ring(s) else RingInBuild(s.loop);
    if r != 0 { assert s.rings.Keys == {r}; } else { assert s.rings.Keys == {}; }
  }

  /** The class driver is handed packets the ring accepted, each once at most,
      in order and unaltered; the ring never holds more than its four. */
  lemma RingIsInOrder(s: State)
    requires Inv(s)
    ensures SentAre(s.sent, s.sentAt, s.accepted)
    ensures forall i, j :: 0 <= i < j < |s.sentAt| ==> s.sentAt[i] < s.sentAt[j]
    ensures s.sTxSlots != 0 ==> Gap(s.head, s.tail) == |s.accepted| - s.consumed <= TX_SLOTS
  {
    hide Counted, Posted, Held, Phased, Wrap, Gap, Slot, SentAre;
    if s.sTxSlots != 0 {
      UnreadBounds(s.rings[Ring(s)], s.accepted, s.consumed);
      WrappedDistance(|s.accepted|, s.consumed);
    }
  }

  /** The producer writes a slot no accepted and unread packet is in. */
  lemma ProducerSparesUnread(s: State, i: nat)
    requires Inv(s) && Enabled(s, OnTx(TxWrite)) && s.consumed <= i < |s.accepted|
    ensures Slot(s.tx.head) != Slot(i)
  {
    hide Counted, Posted, Phased, Wrap, Slot, Rising, SentAre;
    UnreadBounds(s.rings[Ring(s)], s.accepted, s.consumed);
    WrappedSlot(|s.accepted|);
    SlotsApart(i, |s.accepted|);
  }

  // ---------------------------------------------------------------------
  // Over whole runs
  // ---------------------------------------------------------------------

  /** `steps` is an interleaving the tasks can perform from `s`. */
  ghost predicate Runs(s: State, steps: seq<Step>)
    decreases |steps|, 0
  {
    steps == [] || (Runs(s, Init(steps)) && Enabled(After(s, Init(steps)), Last(steps)))
  }

  ghost function After(s: State, steps: seq<Step>): State
    requires Runs(s, steps)
    decreases |steps|, 1
  {
    if steps == [] then s else Do(After(s, Init(steps)), Last(steps))
  }

  /** No barrier on the run was posted at a multiple of 2^32 askings. */
  ghost predicate AllFresh(s: State, steps: seq<Step>)
    requires Runs(s, steps)
  {
    steps == [] || (AllFresh(s, Init(steps)) && Fresh(After(s, Init(steps)), Last(steps)))
  }

  lemma {:induction false} RunKeeps(s: State, steps: seq<Step>)
    requires Initial(s) && Runs(s, steps) && AllFresh(s, steps)
    ensures Inv(After(s, steps))
  {
    hide Inv, Do, Enabled, Initial, Fresh;
    if steps == [] {
      InvInit(s);
    } else {
      RunKeeps(s, Init(steps));
      StepKeeps(After(s, Init(steps)), Last(steps));
    }
  }

  /** Whatever the step touches is alive, and there is at most one of each. */
  ghost predicate TouchesAreSafe(t: State, step: Step) {
    && RingsTouched(t, step) <= t.rings.Keys && NetifsTouched(t, step) <= t.netifs
    && |t.netifs| <= 1 && |t.rings| <= 1
  }

  /** What is sent rises, unaltered, through what was accepted; head - tail is the
      number unread, four at most; a slot written is not one that is unread. */
  ghost predicate RingIsSafe(t: State, step: Step) {
    && SentAre(t.sent, t.sentAt, t.accepted)
    && (forall i, j :: 0 <= i < j < |t.sentAt| ==> t.sentAt[i] < t.sentAt[j])
    && (t.sTxSlots != 0 ==> Gap(t.head, t.tail) == |t.accepted| - t.consumed <= TX_SLOTS)
    && (step == OnTx(TxWrite) && t.tx.TxRoom? ==>
          forall i :: t.consumed <= i < |t.accepted| ==> Slot(t.tx.head) != Slot(i))
  }

  /** An interface is destroyed with nothing of its own in the mailbox and nobody
      holding it; a ring is freed with nobody holding it. */
  ghost predicate EndsAreSafe(t: State, step: Step) {
    && (step == OnTeardown(DestroyNetif) ==>
          && t.stopNetif in t.netifs && Frame(t.stopNetif) !in t.mailbox && t.msg != Consuming(t.stopNetif)
          && RecvNetif(t.usb) != t.stopNetif && t.sNetif != t.stopNetif)
    && (step == OnTeardown(FreeRing) ==>
          && t.stopSlots in t.rings && t.sTxSlots != t.stopSlots
          && TxRing(t.tx) != t.stopSlots && DrainRing(t.usb) != t.stopSlots)
  }

  lemma RingStaysSafe(t: State, step: Step)
    requires Inv(t) && Enabled(t, step)
    ensures RingIsSafe(t, step)
  {
    hide Inv, Enabled, SentAre, Gap, Slot;
    RingIsInOrder(t);
    if step == OnTx(TxWrite) && t.tx.TxRoom? {
      forall i: nat | t.consumed <= i < |t.accepted|
        ensures Slot(t.tx.head) != Slot(i)
      {
        ProducerSparesUnread(t, i);
      }
    }
  }

  /** In every interleaving of the four contexts, whatever step comes next. */
  lemma EveryRunIsSafe(s: State, steps: seq<Step>, step: Step)
    requires Initial(s) && Runs(s, steps) && AllFresh(s, steps)
    requires Enabled(After(s, steps), step)
    ensures var t := After(s, steps); TouchesAreSafe(t, step) && RingIsSafe(t, step) && EndsAreSafe(t, step)
  {
    hide Inv, Do, Enabled, Initial, RingIsSafe, RingsTouched, NetifsTouched, TxRing, DrainRing, RecvNetif;
    RunKeeps(s, steps);
    var t := After(s, steps);
    TouchesOnlyLive(t, step);
    AtMostOne(t);
    RingStaysSafe(t, step);
    if step == OnTeardown(DestroyNetif) { ConsumedBeforeDestroyed(t); }
    if step == OnTeardown(FreeRing) { NobodyInsideWhenFreed(t); }
  }

  // ---------------------------------------------------------------------
  // The build latch
  // ---------------------------------------------------------------------

  predicate BuildFails(step: Step) {
    step.OnUpkeep?
    && ((step.upkeep.BuildStart? && !(step.upkeep.timer && step.upkeep.memory)) || step.upkeep == BuildNew(false))
  }

  predicate BuildStarts(step: Step) { step.OnUpkeep? && step.upkeep.BuildStart? }

  predicate Latched(s: State) { s.failed && !s.loop.BuildPublished? && !BuildPc(s.loop) }

  /** A poll that finds the switch off and nothing left to give back. */
  predicate Lifts(s: State, step: Step) { step == OnUpkeep(PollIdle(false)) && s.sNetif == 0 }

  lemma TxSparesTheLatch(s: State, step: TxStep)
    requires TxEnabled(s, step)
    ensures DoTx(s, step).failed == s.failed && DoTx(s, step).loop == s.loop
  {
  }

  lemma MsgSparesTheLatch(s: State, step: MsgStep)
    requires MsgEnabled(s, step)
    ensures DoMsg(s, step).failed == s.failed && DoMsg(s, step).loop == s.loop
  {
  }

  lemma UsbSparesTheLatch(s: State, step: UsbStep)
    requires UsbEnabled(s, step)
    ensures DoUsb(s, step).failed == s.failed && DoUsb(s, step).loop == s.loop
  {
  }

  lemma TeardownSparesTheLatch(s: State, step: TeardownStep)
    requires TeardownEnabled(s, step) && Latched(s)
    ensures Latched(DoTeardown(s, step))
  {
    hide Wrap, Next32;
  }

  lemma UpkeepKeepsTheLatch(s: State, step: UpkeepStep)
    requires UpkeepEnabled(s, step)
    ensures BuildFails(OnUpkeep(step)) ==> Latched(DoUpkeep(s, step))
    ensures Latched(s) && !Lifts(s, OnUpkeep(step)) ==> !step.BuildStart? && Latched(DoUpkeep(s, step))
  {
  }

  lemma LatchHolds(s: State, step: Step)
    requires Enabled(s, step)
    ensures BuildFails(step) ==> Latched(Do(s, step))
    ensures Latched(s) && !Lifts(s, step) ==> !BuildStarts(step) && Latched(Do(s, step))
  {
    hide TxEnabled, MsgEnabled, UsbEnabled, UpkeepEnabled, TeardownEnabled, DoTx, DoMsg, DoUsb, DoUpkeep, DoTeardown;
    match step
    case OnTx(x) => TxSparesTheLatch(s, x);
    case OnMsg(m) => MsgSparesTheLatch(s, m);
    case OnUsb(u) => UsbSparesTheLatch(s, u);
    case OnUpkeep(k) => UpkeepKeepsTheLatch(s, k);
    case OnTeardown(d) => if Latched(s) { TeardownSparesTheLatch(s, d); }
  }

  /** Some step from the `from`-th on was such a poll. */
  ghost predicate Lifted(s: State, steps: seq<Step>, from: nat)
    requires Runs(s, steps)
  {
    && |steps| > from
    && (Lifts(After(s, Init(steps)), Last(steps)) || Lifted(s, Init(steps), from))
  }

  /** Spelt out: at the moment of that poll the switch was off and no interface built. */
  lemma {:induction false} LiftedMeans(s: State, steps: seq<Step>, from: nat) returns (k: nat)
    requires Runs(s, steps) && Lifted(s, steps, from)
    ensures from <= k < |steps| && Runs(s, steps[..k])
    ensures steps[k] == OnUpkeep(PollIdle(false)) && After(s, steps[..k]).sNetif == 0
  {
    hide Enabled, Do;
    var i := Init(steps);
    if Lifts(After(s, i), Last(steps)) {
      k := |steps| - 1;
      assert steps[..k] == i;
    } else {
      k := LiftedMeans(s, i, from);
      assert i[..k] == steps[..k];
    }
  }

  lemma {:induction false} LatchLasts(s: State, steps: seq<Step>, from: nat)
    requires Runs(s, steps) && 0 < from <= |steps| && BuildFails(steps[from - 1]) && !Lifted(s, steps, from)
    ensures Latched(After(s, steps))
    decreases |steps|
  {
    hide Enabled, Do, BuildFails, Latched, Lifts;
    if |steps| > from { LatchLasts(s, Init(steps), from); }
    LatchHolds(After(s, Init(steps)), Last(steps));
  }

  /** A build that failed is not tried again until a poll has seen the switch
      off with nothing left to give back. */
  lemma FailureIsNotRetried(s: State, steps: seq<Step>, from: nat, again: Step) returns (k: nat)
    requires Runs(s, steps + [again]) && 0 < from <= |steps| && BuildFails(steps[from - 1]) && BuildStarts(again)
    ensures from <= k < |steps| && Runs(s, steps[..k])
    ensures steps[k] == OnUpkeep(PollIdle(false)) && After(s, steps[..k]).sNetif == 0
  {
    hide Enabled, Do, BuildFails, Latched;
    assert Init(steps + [again]) == steps && Last(steps + [again]) == again;
    if !Lifted(s, steps, from) {
      LatchLasts(s, steps, from);
      LatchHolds(After(s, steps), again);
    }
    k := LiftedMeans(s, steps, from);
  }

  // ---------------------------------------------------------------------
  // Where the barrier's counters wrap
  // ---------------------------------------------------------------------

  /** Straight after a barrier is posted behind a frame that waits, or that lwIP is in
      the middle of, the loop task passes it by exactly when it had been asked for a
      multiple of 2^32 times since the last one ran; otherwise it waits. */
  lemma BarrierIsPassedByIff(s: State)
    requires Inv(s) && TeardownEnabled(s, PostBarrier(true)) && (s.mailbox != [] || s.msg.Consuming?)
    ensures var t := DoTeardown(s, PostBarrier(true));
      && TeardownEnabled(t, PollLwip)
      && (s.mailbox != [] ==> t.mailbox[0] == Frame(s.stopNetif))
      && (s.msg.Consuming? ==> t.msg == Consuming(s.stopNetif))
      && (DoTeardown(t, PollLwip).stop == Finish <==> Wrap(s.attempts) == 0)
  {
    hide Counted, Owned, Held, Flowing, OnlyFrames, Wrap;
    BarrierWaits(s.seen, s.attempts);
    if s.mailbox != [] { FramesDrop(s.mailbox, Netif(s)); }
  }

  /** Switched off with one frame still in lwIP's mailbox, nobody inside, and
      the mailbox refusing the barrier for the n-th time. */
  ghost predicate Stuck(s: State, n: nat) {
    && s.loop == LoopOut && s.stop == Quiesce && s.stopNetif != 0
    && s.ringUsers == 0 && s.netifUsers == 0
    && s.mailbox == [Frame(s.stopNetif)] && s.seen == 0 && s.attempts == n && s.asked == Wrap(n)
  }

  lemma Extend(s: State, steps: seq<Step>, step: Step)
    requires Runs(s, steps) && Enabled(After(s, steps), step)
    ensures Runs(s, steps + [step]) && After(s, steps + [step]) == Do(After(s, steps), step)
  {
    hide Enabled, Do;
    assert Init(steps + [step]) == steps && Last(steps + [step]) == step;
  }

  // The four steps of one asking, each as an update.

  lemma AskingPoll(s: State)
    requires s.loop == LoopOut && s.stop == Quiesce
    ensures Enabled(s, OnTeardown(PollQuiesce)) && Do(s, OnTeardown(PollQuiesce)) == s.(loop := QuiesceRing)
  {
  }

  lemma AskingRing(s: State)
    requires s.loop == QuiesceRing && s.ringUsers == 0
    ensures Enabled(s, OnTeardown(CheckRingUsers)) && Do(s, OnTeardown(CheckRingUsers)) == s.(loop := QuiesceNetif)
  {
  }

  lemma AskingNetif(s: State)
    requires s.loop == QuiesceNetif && s.netifUsers == 0
    ensures Enabled(s, OnTeardown(CheckNetifUsers)) && Do(s, OnTeardown(CheckNetifUsers)) == s.(loop := QuiesceAsk)
  {
  }

  lemma AskingBarrier(s: State, n: nat)
    requires s.loop == QuiesceAsk && s.attempts == n && s.asked == Wrap(n)
    ensures Enabled(s, OnTeardown(AskBarrier))
    ensures Do(s, OnTeardown(AskBarrier)) == s.(asked := Wrap(n + 1), attempts := n + 1, loop := QuiescePost)
  {
    WrappedSlot(n);
    hide Wrap, Slot;
  }

  lemma AskFrom(s: State, steps: seq<Step>, n: nat) returns (more: seq<Step>)
    requires Runs(s, steps)
    requires var t := After(s, steps);
      t.loop == QuiesceRing && t.ringUsers == 0 && t.netifUsers == 0 && t.attempts == n && t.asked == Wrap(n)
    ensures Runs(s, more)
    ensures After(s, more) == After(s, steps).(asked := Wrap(n + 1), attempts := n + 1, loop := QuiescePost)
  {
    hide Enabled, Do, Wrap;
    var t := After(s, steps);
    AskingRing(t);
    Extend(s, steps, OnTeardown(CheckRingUsers));
    more := steps + [OnTeardown(CheckRingUsers)];
    AskingNetif(t.(loop := QuiesceNetif));
    Extend(s, more, OnTeardown(CheckNetifUsers));
    more := more + [OnTeardown(CheckNetifUsers)];
    AskingBarrier(t.(loop := QuiesceAsk), n);
    Extend(s, more, OnTeardown(AskBarrier));
    more := more + [OnTeardown(AskBarrier)];
  }

  lemma Ask(s: State, steps: seq<Step>, n: nat) returns (more: seq<Step>)
    requires Runs(s, steps) && Stuck(After(s, steps), n)
    ensures Runs(s, more)
    ensures After(s, more) == After(s, steps).(asked := Wrap(n + 1), attempts := n + 1, loop := QuiescePost)
  {
    hide Enabled, Do, Wrap;
    AskingPoll(After(s, steps));
    Extend(s, steps, OnTeardown(PollQuiesce));
    more := AskFrom(s, steps + [OnTeardown(PollQuiesce)], n);
  }

  lemma {:induction false} Refused(s: State, steps: seq<Step>, n: nat, k: nat) returns (more: seq<Step>)
    requires Runs(s, steps) && Stuck(After(s, steps), n)
    ensures Runs(s, more) && Stuck(After(s, more), n + k)
    decreases k
  {
    hide Enabled, Do, Wrap;
    if k == 0 {
      more := steps;
    } else {
      more := Refused(s, steps, n, k - 1);
      more := Ask(s, more, n + k - 1);
      RefusedPost(After(s, more));
      Extend(s, more, OnTeardown(PostBarrier(false)));
      more := more + [OnTeardown(PostBarrier(false))];
    }
  }

  lemma RefusedPost(s: State)
    requires s.loop == QuiescePost
    ensures Enabled(s, OnTeardown(PostBarrier(false))) && Do(s, OnTeardown(PostBarrier(false))) == s.(loop := LoopOut)
  {
  }

  // From nothing to a link with one frame in the mailbox, being switched off.

  const SCRIPT: seq<Step> := [
    OnUpkeep(BuildStart(true, true)), OnUpkeep(BuildZeroTail), OnUpkeep(BuildZeroHead), OnUpkeep(BuildNew(true)),
    OnUpkeep(BuildPublishRing), OnUpkeep(BuildPublishNetif), OnUpkeep(UpStart), OnUpkeep(UpConnect),
    OnUpkeep(UpDone), OnUsb(RecvEnter), OnUsb(RecvCount), OnUsb(RecvLoad), OnUsb(RecvPost(true)), OnUsb(RecvLeave),
    OnTeardown(StopStart), OnTeardown(StopBringDown), OnTeardown(StopTakeNetif), OnTeardown(StopTakeRing)]

  ghost predicate Building(k: nat, s: State) {
    && s.nextId > 0 && !s.failed && s.stop == Idle && !s.sUp && s.usb == UsbOut && s.netifUsers == 0 && s.mailbox == []
    && match k
       case 0 => s.loop == LoopOut && s.sNetif == 0
       case 1 => s.loop.BuildRing? && s.loop.ring != 0
       case 2 => s.loop.BuildTail? && s.loop.ring != 0
       case 3 => s.loop.BuildHead? && s.loop.ring != 0
       case 4 => s.loop.BuildNetif? && s.loop.ring != 0 && s.loop.netif != 0
       case 5 => s.loop.BuildPublished? && s.loop.netif != 0
       case 6 => s.loop == LoopOut && s.sNetif != 0
       case 7 => s.loop == GoingUp && s.sNetif != 0
       case 8 => s.loop == Connecting && s.sNetif != 0
       case _ => false
  }

  ghost predicate Catching(k: nat, s: State) {
    && s.loop == LoopOut && s.stop == Idle && s.sNetif != 0 && s.sUp
    && match k
       case 9 => s.usb == UsbOut && s.netifUsers == 0 && s.mailbox == []
       case 10 => s.usb == RecvAdmitted && s.netifUsers == 0 && s.mailbox == []
       case 11 => s.usb == RecvCounted && s.netifUsers == 1 && s.mailbox == []
       case 12 => s.usb == RecvLoaded(s.sNetif) && s.netifUsers == 1 && s.mailbox == []
       case 13 => s.usb == RecvLeaving && s.netifUsers == 1 && s.mailbox == [Frame(s.sNetif)]
       case 14 => s.usb == UsbOut && s.netifUsers == 0 && s.mailbox == [Frame(s.sNetif)]
       case _ => false
  }

  ghost predicate Stopping(k: nat, s: State) {
    && s.netifUsers == 0
    && match k
       case 15 => s.loop == StopDown && s.sNetif != 0 && s.mailbox == [Frame(s.sNetif)]
       case 16 => s.loop == StopNetif && s.sNetif != 0 && s.mailbox == [Frame(s.sNetif)]
       case 17 => s.loop == StopRing && s.stopNetif != 0 && s.mailbox == [Frame(s.stopNetif)]
       case 18 => s.loop == QuiesceRing && s.stop == Quiesce && s.stopNetif != 0 && s.mailbox == [Frame(s.stopNetif)]
       case _ => false
  }

  ghost predicate Stage(k: nat, s: State) {
    && s.ringUsers == 0 && s.asked == 0 && s.seen == 0 && s.attempts == 0
    && (Building(k, s) || Catching(k, s) || Stopping(k, s))
  }

  lemma StageBuilds(k: nat, s: State)
    requires k < 9 && Stage(k, s)
    ensures Enabled(s, SCRIPT[k]) && Stage(k + 1, Do(s, SCRIPT[k]))
  {
  }

  lemma StageCatches(k: nat, s: State)
    requires 9 <= k < 14 && Stage(k, s)
    ensures Enabled(s, SCRIPT[k]) && Stage(k + 1, Do(s, SCRIPT[k]))
  {
    hide Building, Stopping, DoTx, DoMsg, DoUpkeep, DoTeardown;
    NotBuilding(k, s);
  }

  lemma NotBuilding(k: nat, s: State)
    ensures k >= 9 ==> !Building(k, s)
    ensures k >= 15 ==> !Catching(k, s)
    ensures k < 15 ==> !Stopping(k, s)
  {
  }

  lemma StageTurns(s: State)
    requires Stage(14, s)
    ensures Enabled(s, SCRIPT[14]) && Stage(15, Do(s, SCRIPT[14]))
  {
    hide Building, DoTx, DoMsg, DoUsb, DoUpkeep;
    NotBuilding(14, s);
    assert SCRIPT[14] == OnTeardown(StopStart);
  }

  lemma StageStops(k: nat, s: State)
    requires 15 <= k < 18 && Stage(k, s)
    ensures Enabled(s, SCRIPT[k]) && Stage(k + 1, Do(s, SCRIPT[k]))
  {
    hide Building, Catching, DoTx, DoMsg, DoUsb, DoUpkeep;
    NotBuilding(k, s);
  }

  lemma ScriptBegins(s: State)
    requires Initial(s)
    ensures Stage(0, s) && |SCRIPT| == 18
  {
  }

  lemma {:induction false} Scripted(s: State, k: nat)
    requires Initial(s) && k <= |SCRIPT|
    ensures Runs(s, SCRIPT[..k]) && Stage(k, After(s, SCRIPT[..k]))
  {
    hide Enabled, Do, Stage, Initial, SCRIPT;
    ScriptBegins(s);
    if k > 0 {
      Scripted(s, k - 1);
      var t := After(s, SCRIPT[..k - 1]);
      if k - 1 < 9 { StageBuilds(k - 1, t); } else if k - 1 < 14 { StageCatches(k - 1, t); }
      else if k - 1 == 14 { StageTurns(t); } else { StageStops(k - 1, t); }
      Extend(s, SCRIPT[..k - 1], SCRIPT[k - 1]);
      assert SCRIPT[..k - 1] + [SCRIPT[k - 1]] == SCRIPT[..k];
    }
  }

  lemma ScriptEnds(s: State)
    requires Stage(18, s)
    ensures s.loop == QuiesceRing && s.stop == Quiesce && s.stopNetif != 0 && s.mailbox == [Frame(s.stopNetif)]
    ensures s.ringUsers == 0 && s.netifUsers == 0 && s.asked == 0 && s.seen == 0 && s.attempts == 0 && Wrap(0) == 0
  {
  }

  lemma SlipsIn(s: State)
    requires s.loop == QuiescePost && s.stop == Quiesce
    ensures Enabled(s, OnTeardown(PostBarrier(true)))
    ensures Do(s, OnTeardown(PostBarrier(true))) == s.(mailbox := s.mailbox + [Barrier], stop := Lwip, loop := LoopOut)
  {
  }

  lemma SlipsPast(s: State)
    requires s.loop == LoopOut && s.stop == Lwip && s.asked == s.seen
    ensures Enabled(s, OnTeardown(PollLwip)) && Do(s, OnTeardown(PollLwip)) == s.(stop := Finish)
  {
  }

  lemma SlipsOut(s: State)
    requires s.loop == LoopOut && s.stop == Finish
    ensures Enabled(s, OnTeardown(PollFinish)) && Do(s, OnTeardown(PollFinish)) == s.(loop := FinishDestroy)
    ensures Enabled(s.(loop := FinishDestroy), OnTeardown(DestroyNetif))
  {
  }

  /** Without `Fresh` the guarantee is false: a run on which lwIP's mailbox
      refuses the barrier 2^32 - 1 times and then takes it destroys the interface
      with a frame for it still waiting. */
  lemma StaleBarrierDestroysEarly(s: State) returns (steps: seq<Step>)
    requires Initial(s)
    ensures Runs(s, steps) && !AllFresh(s, steps)
    ensures var t := After(s, steps); Enabled(t, OnTeardown(DestroyNetif)) && Frame(t.stopNetif) in t.mailbox
  {
    hide Enabled, Do, Stage, Wrap;
    Scripted(s, 18);
    steps := SCRIPT[..18];
    ScriptEnds(After(s, steps));
    steps := AskFrom(s, steps, 0);
    RefusedPost(After(s, steps));
    Extend(s, steps, OnTeardown(PostBarrier(false)));
    steps := steps + [OnTeardown(PostBarrier(false))];
    assert Stuck(After(s, steps), 1);
    steps := Refused(s, steps, 1, TWO_TO_32 - 2);
    steps := Ask(s, steps, TWO_TO_32 - 1);
    WrapsToNothing();
    SlipsIn(After(s, steps));
    StaleStays(s, steps);
    var all := steps + [OnTeardown(PostBarrier(true))];
    SlipsPast(After(s, all));
    Extend(s, all, OnTeardown(PollLwip));
    all := all + [OnTeardown(PollLwip)];
    SlipsOut(After(s, all));
    NotFreshLonger(s, steps + [OnTeardown(PostBarrier(true))], OnTeardown(PollLwip));
    Extend(s, all, OnTeardown(PollFinish));
    NotFreshLonger(s, all, OnTeardown(PollFinish));
    steps := all + [OnTeardown(PollFinish)];
  }

  lemma WrapsToNothing()
    ensures Wrap(TWO_TO_32) == 0
  {
  }

  lemma StaleStays(s: State, steps: seq<Step>)
    requires Runs(s, steps) && Enabled(After(s, steps), OnTeardown(PostBarrier(true)))
    requires Wrap(After(s, steps).attempts) == 0
    ensures Runs(s, steps + [OnTeardown(PostBarrier(true))]) && !AllFresh(s, steps + [OnTeardown(PostBarrier(true))])
    ensures After(s, steps + [OnTeardown(PostBarrier(true))]) == Do(After(s, steps), OnTeardown(PostBarrier(true)))
  {
    hide Enabled, Do, Wrap;
    Extend(s, steps, OnTeardown(PostBarrier(true)));
    assert Init(steps + [OnTeardown(PostBarrier(true))]) == steps;
  }

  lemma NotFreshLonger(s: State, steps: seq<Step>, step: Step)
    requires Runs(s, steps) && !AllFresh(s, steps) && Enabled(After(s, steps), step)
    ensures Runs(s, steps + [step]) && !AllFresh(s, steps + [step])
  {
    hide Enabled, Do, Fresh;
    Extend(s, steps, step);
    assert Init(steps + [step]) == steps;
  }
}
