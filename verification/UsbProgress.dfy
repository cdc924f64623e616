/** What the four contexts of src/net/UsbNcm.cpp get done.

    `UsbNcm` says what never happens; this says what does: what becomes of every frame
    handed to `transmit`, that a drain empties the ring, and within how many of its own
    steps a task reaches what it is for, whatever the others do between them. */
module UsbProgress {
  import opened Bytes
  import opened UsbNcm

  // ---------------------------------------------------------------------
  // What becomes of a frame
  // ---------------------------------------------------------------------

  /** The ring is full exactly when four frames in it are unread, the counters' wrap
      at 2^32 included. */
  lemma RoomIff(s: State)
    requires Inv(s) && TxEnabled(s, TxLoadTail)
    ensures DoTx(s, TxLoadTail).tx.TxRoom? <==> |s.accepted| < s.consumed + 4
    ensures DoTx(s, TxLoadTail).tx == TxRoom(s.tx.p, s.tx.ring, s.tx.head) || DoTx(s, TxLoadTail).tx == TxLeaving
  {
    hide Counted, Phased, Posted, Rising, SentAre, Slot, Wrap, Gap;
    TxHasRing(s);
    UnreadBounds(s.rings[Ring(s)], s.accepted, s.consumed);
    WrappedDistance(|s.accepted|, s.consumed);
  }

  /** What a `transmit` has found where it looked: the ring it loaded, whether the link
      may carry the packet, whether there was room. */
  datatype Sight = Sight(ring: Option<nat>, carried: Option<bool>, room: Option<bool>)

  const UNSEEN: Sight := Sight(None, None, None)

  function SightAfter(seen: Sight, p: Packet, s: State, step: Step): Sight {
    match step
    case OnTx(TxLoad) => seen.(ring := Some(s.sTxSlots))
    case OnTx(TxCheck) => seen.(carried := Some(s.sUp && seen.ring.Some? && seen.ring.value != 0 && |p| <= 1514))
    case OnTx(TxLoadTail) => seen.(room := Some(|s.accepted| < s.consumed + 4))
    case _ => seen
  }

  ghost function Sights(s: State, p: Packet, steps: seq<Step>): Sight
    requires Runs(s, steps)
  {
    if steps == [] then UNSEEN
    else SightAfter(Sights(s, p, Init(steps)), p, After(s, Init(steps)), Last(steps))
  }

  /** What a step adds to the ring. */
  function Gain(was: seq<Packet>, now: seq<Packet>): seq<Packet> { if was < now then now[|was|..] else [] }

  /** Every packet the ring gains along a run, whoever puts it there. */
  ghost function Gained(s: State, steps: seq<Step>): seq<Packet>
    requires Runs(s, steps)
  {
    if steps == [] then []
    else Gained(s, Init(steps)) + Gain(After(s, Init(steps)).accepted, After(s, steps).accepted)
  }

  predicate Enters(step: Step) { step.OnTx? && step.tx.TxEnter? }

  /** How far a `transmit` of `p` has come, by what it has seen. */
  ghost predicate Carrying(tx: TxPc, p: Packet, seen: Sight, gained: seq<Packet>) {
    match tx
    case TxCounted(q) => q == p && gained == [] && seen == UNSEEN
    case TxLoaded(q, ring) => q == p && gained == [] && seen == Sight(Some(ring), None, None)
    case TxChecked(q, _) => q == p && gained == [] && seen.carried == Some(true)
    case TxHead(q, _, _) => q == p && gained == [] && seen.carried == Some(true)
    case TxRoom(q, _, _) => q == p && gained == [] && seen.carried == Some(true) && seen.room == Some(true)
    case TxWritten(q, _, _) => q == p && gained == [] && seen.carried == Some(true) && seen.room == Some(true)
    case _ =>
      && seen.carried.Some? && (seen.carried.value ==> seen.room.Some?)
      && gained == if seen.carried.value && seen.room.value then [p] else []
  }

  lemma OthersSpareTx(s: State, step: Step)
    requires Enabled(s, step) && !step.OnTx?
    ensures var t := Do(s, step); t.tx == s.tx && (t.accepted == s.accepted || t.accepted == [])
  {
    hide DoMsg, DoUsb, DoUpkeep, DoTeardown, MsgEnabled, UsbEnabled, UpkeepEnabled, TeardownEnabled;
    match step
    case OnMsg(m) => MsgTouchesOnlyItsOwn(s, m);
    case OnUsb(u) => UsbTouchesOnlyItsOwn(s, u);
    case OnUpkeep(k) => UpkeepSparesTx(s, k);
    case OnTeardown(d) => TeardownTouchesOnlyItsOwn(s, d);
  }

  lemma UpkeepSparesTx(s: State, step: UpkeepStep)
    requires UpkeepEnabled(s, step)
    ensures var t := DoUpkeep(s, step); t.tx == s.tx && (t.accepted == s.accepted || t.accepted == [])
  {
  }

  lemma GainIsPacket(was: seq<Packet>, p: Packet)
    ensures Gain(was, was + [p]) == [p]
  {
  }

  lemma CarryingRoom(s: State, p: Packet, seen: Sight, gained: seq<Packet>)
    requires Inv(s) && TxEnabled(s, TxLoadTail) && Carrying(s.tx, p, seen, gained)
    ensures var t := DoTx(s, TxLoadTail); Carrying(t.tx, p, SightAfter(seen, p, s, OnTx(TxLoadTail)), gained)
    ensures DoTx(s, TxLoadTail).accepted == s.accepted
  {
    hide Inv, DoTx;
    RoomIff(s);
    TxSparesDrain(s, TxLoadTail);
  }

  lemma CarryingPublish(s: State, p: Packet, seen: Sight, gained: seq<Packet>)
    requires TxEnabled(s, TxPublish) && Carrying(s.tx, p, seen, gained)
    ensures var t := DoTx(s, TxPublish); Carrying(t.tx, p, seen, gained + Gain(s.accepted, t.accepted))
  {
    GainIsPacket(s.accepted, s.tx.p);
    hide Gain, Wrap, Next32;
  }

  lemma CarryingRest(s: State, step: TxStep, p: Packet, seen: Sight, gained: seq<Packet>)
    requires TxEnabled(s, step) && step != TxLoadTail && step != TxPublish && !step.TxEnter?
    requires Carrying(s.tx, p, seen, gained)
    ensures var t := DoTx(s, step); Carrying(t.tx, p, SightAfter(seen, p, s, OnTx(step)), gained)
    ensures DoTx(s, step).accepted == s.accepted
  {
    hide Slot, Wrap, Gap, Next32;
  }

  lemma CarryingStep(s: State, step: TxStep, p: Packet, seen: Sight, gained: seq<Packet>)
    requires Inv(s) && TxEnabled(s, step) && !step.TxEnter? && Carrying(s.tx, p, seen, gained)
    ensures var t := DoTx(s, step);
      Carrying(t.tx, p, SightAfter(seen, p, s, OnTx(step)), gained + Gain(s.accepted, t.accepted))
  {
    hide Inv, Carrying, TxEnabled, DoTx;
    assert gained + [] == gained;
    match step
    case TxLoadTail => CarryingRoom(s, p, seen, gained);
    case TxPublish => CarryingPublish(s, p, seen, gained);
    case _ => CarryingRest(s, step, p, seen, gained);
  }

  lemma {:induction false} CarriesAlong(s: State, p: Packet, steps: seq<Step>)
    requires Inv(s) && s.tx == TxCounted(p) && Runs(s, steps) && AllFresh(s, steps)
    requires forall i :: 0 <= i < |steps| ==> !Enters(steps[i])
    ensures var t := After(s, steps); Inv(t) && Carrying(t.tx, p, Sights(s, p, steps), Gained(s, steps))
  {
    hide Inv, Do, Enabled, Fresh, Carrying, SightAfter, Gain;
    if steps == [] {
      CarryingBegins(s, p);
    } else {
      var u := After(s, Init(steps));
      assert forall i :: 0 <= i < |Init(steps)| ==> Init(steps)[i] == steps[i];
      CarriesAlong(s, p, Init(steps));
      StepKeeps(u, Last(steps));
      var seen, gained := Sights(s, p, Init(steps)), Gained(s, Init(steps));
      assert !Enters(Last(steps));
      CarryingOn(u, Last(steps), p, seen, gained);
    }
  }

  /** Whatever the other tasks do between its steps, a `transmit` puts its packet into
      the ring, once, exactly when it finds the link up, a ring, a length of at most
      1514 and fewer than four frames unread; and otherwise nothing. It does not leave
      without having looked. */
  lemma TransmitTakes(s: State, p: Packet, steps: seq<Step>)
    requires Inv(s) && TxEnabled(s, TxEnter(p))
    requires var begun := Do(s, OnTx(TxEnter(p)));
      && Runs(begun, steps) && AllFresh(begun, steps) && After(begun, steps).tx == TxOut
      && forall i :: 0 <= i < |steps| ==> !Enters(steps[i])
    ensures var begun := Do(s, OnTx(TxEnter(p)));
      var seen := Sights(begun, p, steps);
      && seen.carried.Some? && (seen.carried.value ==> seen.room.Some?)
      && Gained(begun, steps) == if seen.carried.value && seen.room.value then [p] else []
  {
    var begun := Do(s, OnTx(TxEnter(p)));
    assert Enabled(s, OnTx(TxEnter(p))) && Fresh(s, OnTx(TxEnter(p)));
    StepKeeps(s, OnTx(TxEnter(p)));
    assert begun.tx == TxCounted(p);
    hide Inv, Do, Enabled;
    CarriesAlong(begun, p, steps);
  }

  lemma CarryingBegins(s: State, p: Packet)
    requires s.tx == TxCounted(p)
    ensures Carrying(s.tx, p, UNSEEN, [])
  {
  }

  lemma CarryingOn(s: State, step: Step, p: Packet, seen: Sight, gained: seq<Packet>)
    requires Inv(s) && Enabled(s, step) && !Enters(step) && Carrying(s.tx, p, seen, gained)
    ensures var t := Do(s, step);
      Carrying(t.tx, p, SightAfter(seen, p, s, step), gained + Gain(s.accepted, t.accepted))
  {
    hide Inv, Carrying, TxEnabled, DoTx;
    if step.OnTx? {
      hide DoMsg, DoUsb, DoUpkeep, DoTeardown;
      CarryingStep(s, step.tx, p, seen, gained);
    } else {
      OthersSpareTx(s, step);
      hide Do;
      assert gained + [] == gained && SightAfter(seen, p, s, step) == seen;
    }
  }

  // ---------------------------------------------------------------------
  // Runs that get somewhere
  // ---------------------------------------------------------------------

  /** Every step of the run is one `ok` allows where it is taken. */
  ghost predicate Along(s: State, steps: seq<Step>, ok: (State, Step) -> bool)
    requires Runs(s, steps)
  {
    steps == [] || (Along(s, Init(steps), ok) && ok(After(s, Init(steps)), Last(steps)))
  }

  /** Somewhere along the run, its beginning and its end included. */
  ghost predicate Reaches(s: State, steps: seq<Step>, goal: State -> bool)
    requires Runs(s, steps)
  {
    goal(After(s, steps)) || (steps != [] && Reaches(s, Init(steps), goal))
  }

  /** A step either arrives, or stays on the way, and a step of one's own is one
      nearer. */
  ghost predicate Nears(on: State -> bool, goal: State -> bool, left: State -> nat,
                        own: Step -> bool, ok: (State, Step) -> bool)
  {
    forall s, step :: on(s) && Enabled(s, step) && ok(s, step) ==>
      var t := Do(s, step);
      goal(t) || (on(t) && Nearer(own(step), left(s), left(t)))
  }

  /** So enough steps of one's own arrive. */
  lemma {:induction false} Arrives(s: State, steps: seq<Step>, on: State -> bool, goal: State -> bool,
                                   left: State -> nat, own: Step -> bool, ok: (State, Step) -> bool)
    requires Nears(on, goal, left, own, ok)
    requires on(s) && Runs(s, steps) && Along(s, steps, ok)
    ensures Reaches(s, steps, goal) || (on(After(s, steps)) && left(After(s, steps)) + Own(steps, own) <= left(s))
  {
    hide Enabled, Do;
    if steps != [] { Arrives(s, Init(steps), on, goal, left, own, ok); }
  }

  // ---------------------------------------------------------------------
  // Whoever is inside leaves
  // ---------------------------------------------------------------------

  predicate Txs(step: Step) { step.OnTx? }

  predicate TxIn(s: State) { s.tx != TxOut }

  predicate TxGone(s: State) { s.tx == TxOut }

  function TxLeft(s: State): (n: nat)
    ensures 1 <= n <= 7
  {
    match s.tx
    case TxCounted(_) => 7 case TxLoaded(_, _) => 6 case TxChecked(_, _) => 5 case TxHead(_, _, _) => 4
    case TxRoom(_, _, _) => 3 case TxWritten(_, _, _) => 2 case _ => 1
  }

  lemma TxNearer(s: State, step: Step)
    requires TxIn(s) && Enabled(s, step)
    ensures var t := Do(s, step); TxGone(t) || (TxIn(t) && Nearer(Txs(step), TxLeft(s), TxLeft(t)))
  {
    if step.OnTx? {
      hide Slot, Wrap, Gap, Next32, DoMsg, DoUsb, DoUpkeep, DoTeardown;
    } else {
      OthersSpareTx(s, step);
      hide Do, Enabled;
    }
  }

  /** A `transmit` is over after seven steps of its own, whatever it finds. */
  lemma TransmitLeaves(s: State, steps: seq<Step>)
    requires s.tx != TxOut && Runs(s, steps) && Own(steps, Txs) >= 7
    ensures Reaches(s, steps, TxGone)
  {
    var ok := (u: State, step: Step) => true;
    hide Do, Enabled, TxGone, TxLeft, Txs;
    assert Nears(TxIn, TxGone, TxLeft, Txs, ok) by {
      forall u, step | TxIn(u) && Enabled(u, step) && ok(u, step)
        ensures var t := Do(u, step); TxGone(t) || (TxIn(t) && Nearer(Txs(step), TxLeft(u), TxLeft(t)))
      {
        TxNearer(u, step);
      }
    }
    AlwaysAlong(s, steps);
    Arrives(s, steps, TxIn, TxGone, TxLeft, Txs, ok);
  }

  lemma {:induction false} AlwaysAlong(s: State, steps: seq<Step>)
    requires Runs(s, steps)
    ensures Along(s, steps, (u, step) => true)
  {
    hide Enabled, Do;
    if steps != [] { AlwaysAlong(s, Init(steps)); }
  }

  predicate Usbs(step: Step) { step.OnUsb? }

  /** No frame more for the ring. */
  predicate NoMore(s: State, step: Step) { Fresh(s, step) && step != OnTx(TxPublish) }

  ghost predicate UsbIn(s: State) { Inv(s) && s.usb != UsbOut }

  predicate UsbGone(s: State) { s.usb == UsbOut }

  function Waiting(s: State): nat { if s.consumed < |s.accepted| then |s.accepted| - s.consumed else 0 }

  function UsbLeft(s: State): (n: nat)
    ensures 1 <= n <= 4 * Waiting(s) + 4
  {
    match s.usb
    case DrainCounted => 4 * Waiting(s) + 4
    case DrainLoop(_) => 4 * Waiting(s) + 3
    case DrainTail(_, _) => 4 * Waiting(s) + 2
    case DrainSlot(_, _) => 4 * Waiting(s) + 1
    case DrainDone(_) => 4 * Waiting(s) + if Waiting(s) == 0 then 1 else 0
    case RecvAdmitted => 4 case RecvCounted => 3 case RecvLoaded(_) => 2
    case _ => 1
  }

  lemma UsbNearer(s: State, step: UsbStep)
    requires UsbIn(s) && UsbEnabled(s, step)
    ensures var t := DoUsb(s, step); UsbGone(t) || (t.usb != UsbOut && UsbLeft(t) < UsbLeft(s))
  {
    DrainHasUnread(s);
    hide Inv, Slot, Wrap, Next32;
  }

  lemma OthersAddNothing(s: State, step: Step)
    requires Enabled(s, step) && !step.OnUsb? && step != OnTx(TxPublish)
    ensures var t := Do(s, step); t.usb == s.usb && Waiting(t) <= Waiting(s)
  {
    hide DoTx, DoMsg, DoUsb, DoUpkeep, DoTeardown, TxEnabled, MsgEnabled, UsbEnabled, UpkeepEnabled, TeardownEnabled;
    match step
    case OnTx(x) => TxTouchesOnlyItsOwn(s, x); TxSparesDrain(s, x);
    case OnMsg(m) => MsgTouchesOnlyItsOwn(s, m);
    case OnUpkeep(k) => UpkeepTouchesOnlyItsOwn(s, k); UpkeepAddsNothing(s, k);
    case OnTeardown(d) => TeardownTouchesOnlyItsOwn(s, d);
    case _ =>
  }

  lemma UpkeepAddsNothing(s: State, step: UpkeepStep)
    requires UpkeepEnabled(s, step)
    ensures Waiting(DoUpkeep(s, step)) <= Waiting(s)
  {
  }

  lemma UsbInNearer(s: State, step: Step)
    requires UsbIn(s) && Enabled(s, step) && NoMore(s, step)
    ensures var t := Do(s, step); UsbGone(t) || (UsbIn(t) && Nearer(Usbs(step), UsbLeft(s), UsbLeft(t)))
  {
    assert Inv(s);
    StepKeeps(s, step);
    hide Inv, Fresh, DoUsb, UsbEnabled, Waiting;
    if step.OnUsb? {
      hide UsbLeft;
      UsbNearer(s, step.usb);
    } else {
      hide Do, Enabled;
      OthersAddNothing(s, step);
    }
  }

  /** The USB task is out again after four steps for each frame unread and four more,
      whatever it finds; so both user counts come down. */
  lemma UsbTaskLeaves(s: State, steps: seq<Step>)
    requires Inv(s) && s.usb != UsbOut
    requires Runs(s, steps) && Along(s, steps, NoMore) && Own(steps, Usbs) >= UsbLeft(s)
    ensures Reaches(s, steps, UsbGone)
  {
    assert UsbIn(s);
    hide Inv, Do, Enabled, UsbIn, UsbGone, UsbLeft, NoMore, Usbs;
    assert Nears(UsbIn, UsbGone, UsbLeft, Usbs, NoMore) by {
      forall u, step | UsbIn(u) && Enabled(u, step) && NoMore(u, step)
        ensures var t := Do(u, step); UsbGone(t) || (UsbIn(t) && Nearer(Usbs(step), UsbLeft(u), UsbLeft(t)))
      {
        UsbInNearer(u, step);
      }
    }
    Arrives(s, steps, UsbIn, UsbGone, UsbLeft, Usbs, NoMore);
  }

  // ---------------------------------------------------------------------
  // A drain
  // ---------------------------------------------------------------------

  /** A drain that looks goes on to an unread frame exactly when there is one, and what
      it hands to the class driver is the oldest. */
  lemma DrainIff(s: State)
    requires Inv(s)
    ensures s.usb == DrainCounted ==> (DoUsb(s, DrainLoad).usb.DrainLoop? <==> s.sTxSlots != 0)
    ensures s.usb.DrainTail? ==> (DoUsb(s, DrainLoadHead).usb.DrainSlot? <==> s.consumed < |s.accepted|)
    ensures s.usb.DrainTail? ==>
      DoUsb(s, DrainLoadHead).usb == DrainSlot(s.usb.ring, s.usb.tail) || DoUsb(s, DrainLoadHead).usb == DrainLeaving
    ensures s.usb.DrainSlot? ==>
      s.consumed < |s.accepted| && DoUsb(s, DrainSend).sent == s.sent + [s.accepted[s.consumed]]
  {
    hide Counted, Phased, Posted, Rising, SentAre, Slot, Wrap;
    if s.usb.DrainTail? || s.usb.DrainSlot? {
      DrainHasRing(s);
      UnreadBounds(s.rings[Ring(s)], s.accepted, s.consumed);
      WrappedDistance(|s.accepted|, s.consumed);
      WrappedSlot(s.consumed);
    }
  }

  /** Handing on the packets that were unread when it began. */
  ghost predicate Emptying(s: State, accepted: seq<Packet>, from: nat, sent: seq<Packet>, whole: bool) {
    && Inv(s) && s.accepted == accepted && from <= s.consumed <= |accepted|
    && ((s.usb == DrainCounted && s.sTxSlots != 0)
        || s.usb.DrainLoop? || s.usb.DrainTail? || s.usb.DrainSlot? || s.usb.DrainDone?)
    && var upTo := s.consumed + if s.usb.DrainDone? then 1 else 0;
       upTo <= |accepted| && (whole ==> s.sent == sent + accepted[from..upTo])
  }

  predicate Emptied(s: State, accepted: seq<Packet>, from: nat, sent: seq<Packet>, whole: bool) {
    && from <= |accepted|
    && s.usb == DrainLeaving && s.consumed == |s.accepted| && (whole ==> s.sent == sent + accepted[from..])
  }

  /** No new frame, the ring is not taken back, and the driver takes what it is given;
      `whole` says that nothing is dropped for being stale or for the link being down. */
  predicate Unhindered(s: State, step: Step, whole: bool) {
    && Fresh(s, step) && step != OnTx(TxPublish) && step != OnUsb(DrainBusy) && step != OnTeardown(StopTakeRing)
    && (whole && step.OnUsb? ==> !step.usb.DrainDrop?)
  }

  lemma EmptyingByDrain(s: State, step: UsbStep, accepted: seq<Packet>, from: nat, sent: seq<Packet>, whole: bool)
    requires Emptying(s, accepted, from, sent, whole) && UsbEnabled(s, step) && Unhindered(s, OnUsb(step), whole)
    requires Inv(DoUsb(s, step))
    ensures var t := DoUsb(s, step);
      Emptied(t, accepted, from, sent, whole) || (Emptying(t, accepted, from, sent, whole) && UsbLeft(t) < UsbLeft(s))
  {
    hide Inv, Slot, Wrap, Next32, Fresh, DoUsb, Emptied;
    match s.usb
    case DrainSlot(_, _) => EmptyingPasses(s, step, accepted, from, sent, whole);
    case DrainTail(_, _) => EmptyingLooks(s, accepted, from, sent, whole);
    case _ => EmptyingGoesOn(s, step, accepted, from, sent, whole);
  }

  lemma EmptyingPasses(s: State, step: UsbStep, accepted: seq<Packet>, from: nat, sent: seq<Packet>, whole: bool)
    requires Emptying(s, accepted, from, sent, whole) && s.usb.DrainSlot?
    requires UsbEnabled(s, step) && Unhindered(s, OnUsb(step), whole) && Inv(DoUsb(s, step))
    ensures var t := DoUsb(s, step); Emptying(t, accepted, from, sent, whole) && UsbLeft(t) < UsbLeft(s)
  {
    if step == DrainSend {
      EmptyingSends(s, accepted, from, sent, whole);
    } else {
      DrainHasUnread(s);
      hide Inv, Fresh;
    }
  }

  lemma EmptyingLooks(s: State, accepted: seq<Packet>, from: nat, sent: seq<Packet>, whole: bool)
    requires Emptying(s, accepted, from, sent, whole) && s.usb.DrainTail? && Inv(DoUsb(s, DrainLoadHead))
    ensures var t := DoUsb(s, DrainLoadHead);
      Emptied(t, accepted, from, sent, whole) || (Emptying(t, accepted, from, sent, whole) && UsbLeft(t) < UsbLeft(s))
  {
    DrainIff(s);
    hide Inv;
    assert from <= |accepted| ==> accepted[from..|accepted|] == accepted[from..];
  }

  lemma EmptyingGoesOn(s: State, step: UsbStep, accepted: seq<Packet>, from: nat, sent: seq<Packet>, whole: bool)
    requires Emptying(s, accepted, from, sent, whole) && !s.usb.DrainTail? && !s.usb.DrainSlot?
    requires UsbEnabled(s, step) && Inv(DoUsb(s, step))
    ensures var t := DoUsb(s, step); Emptying(t, accepted, from, sent, whole) && UsbLeft(t) < UsbLeft(s)
  {
    DrainHasUnread(s);
    hide Inv, Next32;
  }

  lemma EmptyingSends(s: State, accepted: seq<Packet>, from: nat, sent: seq<Packet>, whole: bool)
    requires Emptying(s, accepted, from, sent, whole) && s.usb.DrainSlot? && Inv(DoUsb(s, DrainSend))
    ensures var t := DoUsb(s, DrainSend); Emptying(t, accepted, from, sent, whole) && UsbLeft(t) < UsbLeft(s)
  {
    DrainIff(s);
    DrainHasUnread(s);
    hide Inv, Slot;
    assert accepted[from..s.consumed + 1] == accepted[from..s.consumed] + [accepted[s.consumed]];
  }

  lemma DrainHasUnread(s: State)
    requires Inv(s)
    ensures s.usb.DrainSlot? || s.usb.DrainDone? ==> s.consumed < |s.accepted|
    ensures s.usb.DrainLoop? ==> s.consumed <= |s.accepted|
  {
    hide Counted, Phased, Posted, Rising, SentAre, Slot, Wrap, Unread;
    if s.usb.DrainSlot? || s.usb.DrainDone? || s.usb.DrainLoop? {
      DrainHasRing(s);
      UnreadBounds(s.rings[Ring(s)], s.accepted, s.consumed);
    }
  }

  lemma OthersSpareDrain(s: State, step: Step)
    requires Inv(s) && Ring(s) != 0 && Enabled(s, step)
    requires !step.OnUsb? && step != OnTx(TxPublish) && step != OnTeardown(StopTakeRing)
    ensures var t := Do(s, step);
      && t.usb == s.usb && t.accepted == s.accepted && t.consumed == s.consumed && t.sent == s.sent
      && t.sTxSlots == s.sTxSlots
  {
    hide Counted, Posted, Owned, Held, Flowing;
    hide DoMsg, DoUsb, DoUpkeep, DoTeardown, MsgEnabled, UsbEnabled, UpkeepEnabled, TeardownEnabled;
    match step
    case OnTx(x) => TxTouchesOnlyItsOwn(s, x); TxSparesDrain(s, x);
    case OnMsg(m) => MsgTouchesOnlyItsOwn(s, m);
    case OnUpkeep(k) =>
      UpkeepTouchesOnlyItsOwn(s, k);
      RingNotBuilding(s);
      UpkeepSparesDrain(s, k);
    case OnTeardown(d) =>
      TeardownTouchesOnlyItsOwn(s, d);
      OnlyTakingTakes(s, d);
    case _ =>
  }

  lemma OnlyTakingTakes(s: State, step: TeardownStep)
    requires TeardownEnabled(s, step) && step != StopTakeRing
    ensures DoTeardown(s, step).sTxSlots == s.sTxSlots
  {
  }

  lemma TxSparesDrain(s: State, step: TxStep)
    requires TxEnabled(s, step) && step != TxPublish
    ensures DoTx(s, step).accepted == s.accepted
  {
  }

  lemma UpkeepSparesDrain(s: State, step: UpkeepStep)
    requires UpkeepEnabled(s, step) && !s.loop.BuildNetif?
    ensures var t := DoUpkeep(s, step);
      && t.accepted == s.accepted && t.consumed == s.consumed && t.sent == s.sent && t.sTxSlots == s.sTxSlots
  {
  }

  lemma EmptyingNearer(s: State, step: Step, accepted: seq<Packet>, from: nat, sent: seq<Packet>, whole: bool)
    requires Emptying(s, accepted, from, sent, whole) && Enabled(s, step) && Unhindered(s, step, whole)
    ensures var t := Do(s, step);
      || Emptied(t, accepted, from, sent, whole)
      || (Emptying(t, accepted, from, sent, whole)
          && Nearer(Usbs(step), UsbLeft(s), UsbLeft(t)))
  {
    StepKeeps(s, step);
    DrainRingIsThere(s);
    hide Inv, DoTx, DoMsg, DoUsb, DoUpkeep, DoTeardown;
    hide TxEnabled, MsgEnabled, UsbEnabled, UpkeepEnabled, TeardownEnabled;
    if step.OnUsb? {
      hide Emptying, Emptied, UsbLeft;
      EmptyingByDrain(s, step.usb, accepted, from, sent, whole);
    } else {
      OthersSpareDrain(s, step);
      hide Do;
    }
  }

  lemma DrainRingIsThere(s: State)
    requires Inv(s)
    ensures s.usb.DrainLoop? || s.usb.DrainTail? || s.usb.DrainSlot? || s.usb.DrainDone? ==> Ring(s) != 0
    ensures s.sTxSlots != 0 ==> Ring(s) != 0 && s.consumed <= |s.accepted|
  {
    hide Counted, Phased, Posted, Rising, SentAre, Slot, Wrap, Unread;
    if Ring(s) != 0 { UnreadBounds(s.rings[Ring(s)], s.accepted, s.consumed); }
  }

  lemma EmptyingBegins(s: State, whole: bool)
    requires Inv(s) && s.usb == UsbOut && s.sTxSlots != 0
    ensures var t := Do(s, OnUsb(DrainEnter));
      Emptying(t, s.accepted, s.consumed, s.sent, whole) && UsbLeft(t) == 4 * (|s.accepted| - s.consumed) + 4
  {
    assert Enabled(s, OnUsb(DrainEnter)) && Fresh(s, OnUsb(DrainEnter));
    StepKeeps(s, OnUsb(DrainEnter));
    DrainRingIsThere(s);
    hide Inv;
    assert s.sent + s.accepted[s.consumed..s.consumed] == s.sent;
  }

  /** Left alone by the producer, and as long as the driver takes them, a drain leaves the
      ring empty; it hands on every frame that was unread, in order, if none was dropped. */
  lemma DrainEmpties(s: State, whole: bool, steps: seq<Step>)
    requires Inv(s) && s.usb == UsbOut && s.sTxSlots != 0
    requires Runs(Do(s, OnUsb(DrainEnter)), steps)
    requires Along(Do(s, OnUsb(DrainEnter)), steps, (u, step) => Unhindered(u, step, whole))
    requires Own(steps, Usbs) >= 4 * (|s.accepted| - s.consumed) + 4
    ensures Reaches(Do(s, OnUsb(DrainEnter)), steps, u => Emptied(u, s.accepted, s.consumed, s.sent, whole))
  {
    var accepted, from, sent := s.accepted, s.consumed, s.sent;
    var begun := Do(s, OnUsb(DrainEnter));
    EmptyingBegins(s, whole);
    var way := (u: State) => Emptying(u, accepted, from, sent, whole);
    var goal := (u: State) => Emptied(u, accepted, from, sent, whole);
    var ok := (u: State, step: Step) => Unhindered(u, step, whole);
    assert way(begun);
    hide Inv, Do, Enabled, Emptying, Emptied, Unhindered, Usbs;
    assert Nears(way, goal, UsbLeft, Usbs, ok) by {
      hide UsbLeft;
      forall u, step | way(u) && Enabled(u, step) && ok(u, step)
        ensures var t := Do(u, step);
          goal(t) || (way(t) && Nearer(Usbs(step), UsbLeft(u), UsbLeft(t)))
      {
        EmptyingNearer(u, step, accepted, from, sent, whole);
      }
    }
    Arrives(begun, steps, way, goal, UsbLeft, Usbs, ok);
  }

  // ---------------------------------------------------------------------
  // A frame that comes in
  // ---------------------------------------------------------------------

  /** The link stays up, there is memory for the frame and room in the mailbox. */
  predicate Welcome(s: State, step: Step) {
    && s.sUp && Fresh(s, step) && step != OnUsb(RecvPost(false)) && step != OnUsb(RecvSkip)
  }

  ghost predicate Incoming(s: State, netif: nat) {
    && Inv(s) && s.sNetif == netif != 0
    && (s.usb == RecvAdmitted || s.usb == RecvCounted || s.usb == RecvLoaded(netif))
  }

  predicate HandedIn(s: State, netif: nat) {
    s.usb == RecvLeaving && s.mailbox != [] && Last(s.mailbox) == Frame(netif)
  }

  function ToHandIn(s: State): (n: nat)
    ensures n >= 1
  {
    match s.usb case RecvAdmitted => 3 case RecvCounted => 2 case _ => 1
  }

  lemma IncomingNearer(s: State, step: Step, netif: nat)
    requires Incoming(s, netif) && Enabled(s, step) && Welcome(s, step)
    ensures var t := Do(s, step);
      || HandedIn(t, netif)
      || (Incoming(t, netif) && Nearer(Usbs(step), ToHandIn(s), ToHandIn(t)))
  {
    assert Inv(s);
    StepKeeps(s, step);
    UpMeansBuilt(s);
    hide Inv, Fresh, HandedIn, ToHandIn, DoUsb, DoUpkeep, DoTeardown, UsbEnabled, UpkeepEnabled, TeardownEnabled;
    match step
    case OnUsb(u) =>
      hide Incoming, Welcome;
      IncomingByUsb(s, u, netif);
    case OnUpkeep(k) =>
      UpkeepTouchesOnlyItsOwn(s, k);
      UpSparesNetif(s, k);
      SameHandIn(s, Do(s, step));
    case OnTeardown(d) =>
      TeardownTouchesOnlyItsOwn(s, d);
      TurnSparesNetif(s, d);
      SameHandIn(s, Do(s, step));
    case _ =>
      hide Do, Enabled;
      OthersSpareIncoming(s, step);
      SameHandIn(s, Do(s, step));
  }

  lemma IncomingByUsb(s: State, step: UsbStep, netif: nat)
    requires Incoming(s, netif) && UsbEnabled(s, step) && Welcome(s, OnUsb(step)) && Inv(DoUsb(s, step))
    ensures var t := DoUsb(s, step);
      HandedIn(t, netif) || (Incoming(t, netif) && ToHandIn(t) < ToHandIn(s))
  {
    hide Inv, Fresh, Wrap, Slot, Next32;
  }

  lemma OthersSpareIncoming(s: State, step: Step)
    requires Enabled(s, step) && (step.OnTx? || step.OnMsg?)
    ensures var t := Do(s, step); t.usb == s.usb && t.sNetif == s.sNetif
  {
    hide DoTx, DoMsg, TxEnabled, MsgEnabled;
    if step.OnTx? { TxTouchesOnlyItsOwn(s, step.tx); } else { MsgTouchesOnlyItsOwn(s, step.msg); }
  }

  lemma SameHandIn(s: State, t: State)
    requires t.usb == s.usb
    ensures ToHandIn(t) == ToHandIn(s)
  {
  }

  /** While the link is up the loop task is outside, and everything is published. */
  lemma UpMeansBuilt(s: State)
    requires Inv(s) && s.sUp
    ensures s.loop == LoopOut && s.stop == Idle && s.sNetif != 0 && s.sTxSlots != 0
  {
    hide Counted, Owned, Held, Posted, Flowing;
  }

  lemma UpSparesNetif(s: State, step: UpkeepStep)
    requires UpkeepEnabled(s, step) && s.loop == LoopOut
    ensures DoUpkeep(s, step).sNetif == s.sNetif
  {
  }

  lemma TurnSparesNetif(s: State, step: TeardownStep)
    requires TeardownEnabled(s, step) && s.loop == LoopOut
    ensures DoTeardown(s, step).sNetif == s.sNetif
  {
  }

  /** A frame the host sends while the link is up is posted to lwIP, for the interface
      there is. */
  lemma FrameIsHandedIn(s: State, steps: seq<Step>)
    requires Inv(s) && s.usb == UsbOut && s.sUp
    requires Runs(Do(s, OnUsb(RecvEnter)), steps) && Along(Do(s, OnUsb(RecvEnter)), steps, Welcome)
    requires Own(steps, Usbs) >= 3
    ensures Reaches(Do(s, OnUsb(RecvEnter)), steps, u => HandedIn(u, s.sNetif))
  {
    var netif := s.sNetif;
    UpMeansBuilt(s);
    assert Enabled(s, OnUsb(RecvEnter)) && Fresh(s, OnUsb(RecvEnter));
    StepKeeps(s, OnUsb(RecvEnter));
    var way := (u: State) => Incoming(u, netif);
    var goal := (u: State) => HandedIn(u, netif);
    assert way(Do(s, OnUsb(RecvEnter))) && ToHandIn(Do(s, OnUsb(RecvEnter))) == 3;
    hide Inv, Do, Enabled, Incoming, HandedIn, Welcome, Usbs, ToHandIn;
    assert Nears(way, goal, ToHandIn, Usbs, Welcome) by {
      forall u, step | way(u) && Enabled(u, step) && Welcome(u, step)
        ensures var t := Do(u, step);
          goal(t) || (way(t) && Nearer(Usbs(step), ToHandIn(u), ToHandIn(t)))
      {
        IncomingNearer(u, step, netif);
      }
    }
    Arrives(Do(s, OnUsb(RecvEnter)), steps, way, goal, ToHandIn, Usbs, Welcome);
  }

  // ---------------------------------------------------------------------
  // The loop task: building, coming up, going down
  // ---------------------------------------------------------------------

  predicate Loops(step: Step) { step.OnUpkeep? || step.OnTeardown? }

  predicate Memory(s: State, step: Step) { Fresh(s, step) && step != OnUpkeep(BuildNew(false)) }

  ghost predicate Building(s: State) { Inv(s) && s.stop == Idle && (BuildPc(s.loop) || s.loop.BuildPublished?) }

  predicate Built(s: State) {
    s.loop == LoopOut && s.stop == Idle && s.sNetif != 0 && s.sTxSlots != 0 && !s.failed
  }

  predicate CameToNothing(s: State) {
    s.loop == LoopOut && s.failed && s.netifs == {} && s.rings == map[]
  }

  function ToBuilt(s: State): (n: nat)
    ensures n >= 1
  {
    match s.loop
    case BuildRing(_) => 5 case BuildTail(_) => 4 case BuildHead(_) => 3 case BuildNetif(_, _) => 2 case _ => 1
  }

  lemma OthersSpareLoop(s: State, step: Step)
    requires Enabled(s, step) && !Loops(step)
    ensures var t := Do(s, step);
      && t.loop == s.loop && t.stop == s.stop && t.sUp == s.sUp
      && t.sNetif == s.sNetif && t.stopNetif == s.stopNetif && t.sTxSlots == s.sTxSlots && t.stopSlots == s.stopSlots
  {
    hide DoTx, DoMsg, DoUsb, DoUpkeep, DoTeardown, TxEnabled, MsgEnabled, UsbEnabled, UpkeepEnabled, TeardownEnabled;
    match step
    case OnTx(x) => TxTouchesOnlyItsOwn(s, x);
    case OnMsg(m) => MsgTouchesOnlyItsOwn(s, m);
    case OnUsb(u) => UsbTouchesOnlyItsOwn(s, u);
    case _ =>
  }

  lemma BuildingByLoop(s: State, step: UpkeepStep)
    requires Building(s) && UpkeepEnabled(s, step) && Inv(DoUpkeep(s, step))
    ensures var t := DoUpkeep(s, step);
      || Built(t) || (step == BuildNew(false) && CameToNothing(t))
      || (Building(t) && ToBuilt(t) < ToBuilt(s))
  {
    hide Counted, Held, Posted, Flowing;
  }

  lemma BuildingNearer(s: State, step: Step)
    requires Building(s) && Enabled(s, step) && Fresh(s, step)
    ensures var t := Do(s, step);
      || Built(t) || (step == OnUpkeep(BuildNew(false)) && CameToNothing(t))
      || (Building(t) && Nearer(Loops(step), ToBuilt(s), ToBuilt(t)))
  {
    assert Inv(s);
    hide Inv, Building, Built, ToBuilt, CameToNothing, Fresh, DoUpkeep, UpkeepEnabled, TeardownEnabled;
    StepKeeps(s, step);
    if step.OnUpkeep? {
      BuildingByLoop(s, step.upkeep);
    } else if step.OnTeardown? {
      BuildingIsNoTeardown(s, step.teardown);
    } else {
      hide Do, Enabled;
      OthersKeepBuilding(s, step);
    }
  }

  lemma OthersKeepBuilding(s: State, step: Step)
    requires Building(s) && Enabled(s, step) && !Loops(step) && Inv(Do(s, step))
    ensures var t := Do(s, step); Building(t) && ToBuilt(t) == ToBuilt(s)
  {
    OthersSpareLoop(s, step);
    hide Inv, Do, Enabled;
  }

  lemma BuildingIsNoTeardown(s: State, step: TeardownStep)
    requires Building(s)
    ensures !TeardownEnabled(s, step)
  {
    hide Inv;
  }

  /** With the switch on, nothing built and no failure to forget, memory for the ring
      and the interface is all it takes to build them. */
  lemma BuildGoesThrough(s: State, steps: seq<Step>)
    requires Inv(s) && ShouldStart(s)
    requires Runs(Do(s, OnUpkeep(BuildStart(true, true))), steps) && Own(steps, Loops) >= 5
    requires Along(Do(s, OnUpkeep(BuildStart(true, true))), steps, Memory)
    ensures Reaches(Do(s, OnUpkeep(BuildStart(true, true))), steps, Built)
  {
    var begun := Do(s, OnUpkeep(BuildStart(true, true)));
    BuildBegins(s);
    hide Inv, Do, Enabled, Building, Built, ToBuilt, Memory, Loops;
    assert Nears(Building, Built, ToBuilt, Loops, Memory) by {
      forall u, step | Building(u) && Enabled(u, step) && Memory(u, step)
        ensures var t := Do(u, step);
          Built(t) || (Building(t) && Nearer(Loops(step), ToBuilt(u), ToBuilt(t)))
      {
        MemoryMeans(u, step);
        BuildingNearer(u, step);
      }
    }
    Arrives(begun, steps, Building, Built, ToBuilt, Loops, Memory);
  }

  lemma MemoryMeans(s: State, step: Step)
    requires Memory(s, step)
    ensures Fresh(s, step) && step != OnUpkeep(BuildNew(false))
  {
  }

  lemma BuildBegins(s: State)
    requires Inv(s) && ShouldStart(s)
    ensures var t := Do(s, OnUpkeep(BuildStart(true, true))); Building(t) && ToBuilt(t) == 5
  {
    assert Enabled(s, OnUpkeep(BuildStart(true, true))) && Fresh(s, OnUpkeep(BuildStart(true, true)));
    StepKeeps(s, OnUpkeep(BuildStart(true, true)));
    hide Inv;
  }

  /** And whatever is refused, nothing half built is left. */
  lemma BuildEnds(s: State, steps: seq<Step>)
    requires Inv(s) && ShouldStart(s)
    requires Runs(Do(s, OnUpkeep(BuildStart(true, true))), steps) && Own(steps, Loops) >= 5
    requires Along(Do(s, OnUpkeep(BuildStart(true, true))), steps, Fresh)
    ensures Reaches(Do(s, OnUpkeep(BuildStart(true, true))), steps, u => Built(u) || CameToNothing(u))
  {
    var begun := Do(s, OnUpkeep(BuildStart(true, true)));
    var goal := (u: State) => Built(u) || CameToNothing(u);
    BuildBegins(s);
    hide Inv, Do, Enabled, Building, Built, CameToNothing, ToBuilt, Fresh, Loops;
    assert Nears(Building, goal, ToBuilt, Loops, Fresh) by {
      forall u, step | Building(u) && Enabled(u, step) && Fresh(u, step)
        ensures var t := Do(u, step);
          goal(t) || (Building(t) && Nearer(Loops(step), ToBuilt(u), ToBuilt(t)))
      {
        BuildingNearer(u, step);
      }
    }
    Arrives(begun, steps, Building, goal, ToBuilt, Loops, Fresh);
  }

  /** After a failure, a poll that finds the switch off and nothing built forgets it, so
      that the next with the switch on builds; a poll with the switch on does not. */
  lemma OffPollForgets(s: State)
    requires Inv(s) && UpkeepEnabled(s, PollIdle(false)) && s.sNetif == 0
    ensures ShouldStart(DoUpkeep(s, PollIdle(false)))
    ensures ShouldStart(DoUpkeep(s, PollIdle(true))) <==> ShouldStart(s)
  {
  }

  /** Coming up, or going down. */
  ghost predicate Turning(s: State, up: bool) {
    Inv(s) && if up then s.loop == GoingUp || s.loop == Connecting else s.loop == GoingDown
  }

  predicate Turned(s: State, up: bool) { s.loop == LoopOut && s.sUp == up && s.sNetif != 0 && s.sTxSlots != 0 }

  function ToTurn(s: State): (n: nat)
    ensures n >= 1
  {
    if s.loop == GoingUp then 2 else 1
  }

  lemma TurningNearer(s: State, step: Step, up: bool)
    requires Turning(s, up) && Enabled(s, step) && Fresh(s, step)
    ensures var t := Do(s, step);
      Turned(t, up) || (Turning(t, up) && Nearer(Loops(step), ToTurn(s), ToTurn(t)))
  {
    StepKeeps(s, step);
    TurningIsBuilt(s, up);
    hide Inv, Fresh, Turned, ToTurn, DoUpkeep, UpkeepEnabled, TeardownEnabled;
    if step.OnUpkeep? {
      hide Turning;
      TurningByLoop(s, step.upkeep, up);
    } else if step.OnTeardown? {
      TurningIsNoTeardown(s, step.teardown);
    } else {
      hide Do, Enabled;
      OthersSpareLoop(s, step);
      SameTurn(s, Do(s, step));
    }
  }

  lemma SameTurn(s: State, t: State)
    requires t.loop == s.loop
    ensures ToTurn(t) == ToTurn(s)
  {
  }

  lemma TurningByLoop(s: State, step: UpkeepStep, up: bool)
    requires Turning(s, up) && UpkeepEnabled(s, step) && Inv(DoUpkeep(s, step))
    requires s.sNetif != 0 && s.sTxSlots != 0 && !s.sUp
    ensures var t := DoUpkeep(s, step); Turned(t, up) || (Turning(t, up) && ToTurn(t) < ToTurn(s))
  {
    hide Inv;
  }

  lemma TurningIsNoTeardown(s: State, step: TeardownStep)
    requires s.loop == GoingUp || s.loop == Connecting || s.loop == GoingDown
    ensures !TeardownEnabled(s, step)
  {
  }

  lemma TurningIsBuilt(s: State, up: bool)
    requires Turning(s, up)
    ensures s.sNetif != 0 && s.sTxSlots != 0 && !s.sUp && s.stop == Idle
  {
    hide Counted, Owned, Held, Posted, Flowing;
  }

  lemma TurnBegins(s: State, up: bool)
    requires Inv(s) && UpkeepEnabled(s, if up then UpStart else DownStart)
    ensures var t := Do(s, OnUpkeep(if up then UpStart else DownStart)); Turning(t, up) && ToTurn(t) <= 2
  {
    var step := OnUpkeep(if up then UpStart else DownStart);
    assert Enabled(s, step) && Fresh(s, step);
    StepKeeps(s, step);
    hide Inv;
  }

  /** The link comes up, or goes down, within two steps of the loop task's. */
  lemma LinkTurns(s: State, up: bool, steps: seq<Step>)
    requires Inv(s) && UpkeepEnabled(s, if up then UpStart else DownStart)
    requires var begun := Do(s, OnUpkeep(if up then UpStart else DownStart));
      && Runs(begun, steps) && Along(begun, steps, Fresh) && Own(steps, Loops) >= 2
    ensures Reaches(Do(s, OnUpkeep(if up then UpStart else DownStart)), steps, u => Turned(u, up))
  {
    var step := OnUpkeep(if up then UpStart else DownStart);
    var begun := Do(s, step);
    TurnBegins(s, up);
    var way := (u: State) => Turning(u, up);
    var goal := (u: State) => Turned(u, up);
    hide Inv, Do, Enabled, Turning, Turned, ToTurn, Fresh, Loops;
    assert Nears(way, goal, ToTurn, Loops, Fresh) by {
      forall u, step | way(u) && Enabled(u, step) && Fresh(u, step)
        ensures var t := Do(u, step);
          goal(t) || (way(t) && Nearer(Loops(step), ToTurn(u), ToTurn(t)))
      {
        TurningNearer(u, step, up);
      }
    }
    Arrives(begun, steps, way, goal, ToTurn, Loops, Fresh);
  }

  // ---------------------------------------------------------------------
  // The loop task: taking apart
  // ---------------------------------------------------------------------

  /** On the way from the switch-off to the two handles taken back. */
  ghost predicate Withdrawing(s: State, netif: nat, ring: nat) {
    && Inv(s) && s.sTxSlots == ring
    && match s.loop
       case StopDown => s.sNetif == netif
       case StopNetif => s.sNetif == netif
       case StopRing => s.stopNetif == netif
       case _ => false
  }

  predicate Withdrawn(s: State, netif: nat, ring: nat) {
    && s.loop == QuiesceRing && s.stop == Quiesce && !s.sUp
    && s.sNetif == 0 && s.sTxSlots == 0 && s.stopNetif == netif && s.stopSlots == ring
  }

  function ToWithdraw(s: State): (n: nat)
    ensures n >= 1
  {
    match s.loop case StopDown => 3 case StopNetif => 2 case _ => 1
  }

  lemma WithdrawingByLoop(s: State, step: TeardownStep, netif: nat, ring: nat)
    requires Withdrawing(s, netif, ring) && TeardownEnabled(s, step) && Inv(DoTeardown(s, step))
    ensures var t := DoTeardown(s, step);
      Withdrawn(t, netif, ring) || (Withdrawing(t, netif, ring) && ToWithdraw(t) < ToWithdraw(s))
  {
    hide Counted, Owned, Held, Posted, Flowing;
  }

  lemma WithdrawingNearer(s: State, step: Step, netif: nat, ring: nat)
    requires Withdrawing(s, netif, ring) && Enabled(s, step) && Fresh(s, step)
    ensures var t := Do(s, step);
      || Withdrawn(t, netif, ring)
      || (Withdrawing(t, netif, ring) && Nearer(Loops(step), ToWithdraw(s), ToWithdraw(t)))
  {
    assert Inv(s);
    StepKeeps(s, step);
    hide Inv, Fresh, Withdrawn, ToWithdraw, DoTeardown, UpkeepEnabled, TeardownEnabled;
    if step.OnTeardown? {
      hide Withdrawing;
      WithdrawingByLoop(s, step.teardown, netif, ring);
    } else if step.OnUpkeep? {
      TakingApartIsNoUpkeep(s, step.upkeep);
    } else {
      hide Do, Enabled;
      OthersSpareLoop(s, step);
      SameWithdraw(s, Do(s, step));
    }
  }

  lemma SameWithdraw(s: State, t: State)
    requires t.loop == s.loop
    ensures ToWithdraw(t) == ToWithdraw(s)
  {
  }

  lemma TakingApartIsNoUpkeep(s: State, step: UpkeepStep)
    requires s.loop == StopDown || s.loop == StopNetif || s.loop == StopRing || s.loop == QuiesceRing
          || s.loop == QuiesceNetif || s.loop == QuiesceAsk || s.loop == QuiescePost || s.loop == FinishDestroy
          || s.loop == FinishFree || (s.loop == LoopOut && s.stop != Idle)
    ensures !UpkeepEnabled(s, step)
  {
  }

  /** Switched off, the link goes down and both handles are taken back at once. */
  lemma SwitchOffWithdraws(s: State, steps: seq<Step>)
    requires Inv(s) && ShouldStop(s)
    requires Runs(Do(s, OnTeardown(StopStart)), steps) && Along(Do(s, OnTeardown(StopStart)), steps, Fresh)
    requires Own(steps, Loops) >= 3
    ensures Reaches(Do(s, OnTeardown(StopStart)), steps, u => Withdrawn(u, s.sNetif, s.sTxSlots))
  {
    var begun, netif, ring := Do(s, OnTeardown(StopStart)), s.sNetif, s.sTxSlots;
    assert Enabled(s, OnTeardown(StopStart)) && Fresh(s, OnTeardown(StopStart));
    StepKeeps(s, OnTeardown(StopStart));
    var way := (u: State) => Withdrawing(u, netif, ring);
    var goal := (u: State) => Withdrawn(u, netif, ring);
    assert way(begun) && ToWithdraw(begun) <= 3;
    hide Inv, Do, Enabled, Withdrawing, Withdrawn, ToWithdraw, Fresh, Loops;
    assert Nears(way, goal, ToWithdraw, Loops, Fresh) by {
      forall u, step | way(u) && Enabled(u, step) && Fresh(u, step)
        ensures var t := Do(u, step);
          goal(t) || (way(t) && Nearer(Loops(step), ToWithdraw(u), ToWithdraw(t)))
      {
        WithdrawingNearer(u, step, netif, ring);
      }
    }
    Arrives(begun, steps, way, goal, ToWithdraw, Loops, Fresh);
  }

  /** The teardown goes on exactly when there is nobody left inside. */
  lemma QuiesceIff(s: State)
    requires Inv(s)
    ensures s.loop == QuiesceRing ==>
      (DoTeardown(s, CheckRingUsers).loop == QuiesceNetif <==> s.tx == TxOut && !Draining(s.usb))
    ensures s.loop == QuiesceNetif ==> (DoTeardown(s, CheckNetifUsers).loop == QuiesceAsk <==> !Receiving(s.usb))
    ensures s.loop == QuiesceRing ==>
      var t := DoTeardown(s, CheckRingUsers); t.stop == Quiesce && (t.loop == QuiesceNetif || t.loop == LoopOut)
    ensures s.loop == QuiesceNetif ==>
      var t := DoTeardown(s, CheckNetifUsers); t.stop == Quiesce && (t.loop == QuiesceAsk || t.loop == LoopOut)
  {
    hide Owned, Held, Posted, Flowing;
  }

  /** Past the wait for lwIP exactly when the barrier has run. */
  lemma LwipIff(s: State)
    requires Inv(s) && TeardownEnabled(s, PollLwip)
    ensures DoTeardown(s, PollLwip).stop == Finish <==> !BarrierOut(s)
    ensures DoTeardown(s, PollLwip).stop != Finish ==> DoTeardown(s, PollLwip) == s
  {
    assert Wrap(0) == 0;
    hide Counted, Owned, Held, Flowing, OnlyFrames, Wrap;
    BarrierWaits(s.seen, s.attempts);
    if s.mailbox != [] { assert Last(s.mailbox) in s.mailbox; }
  }

  /** Nobody inside when the loop task looks, and room for the barrier. */
  predicate NobodyInside(s: State, step: Step) {
    && Fresh(s, step) && step != OnTeardown(PostBarrier(false))
    && (step == OnTeardown(CheckRingUsers) ==> s.tx == TxOut && !Draining(s.usb))
    && (step == OnTeardown(CheckNetifUsers) ==> !Receiving(s.usb))
  }

  ghost predicate Asking(s: State) {
    && Inv(s) && s.stop == Quiesce
    && (s.loop == LoopOut || s.loop == QuiesceRing || s.loop == QuiesceNetif || s.loop == QuiesceAsk
        || s.loop == QuiescePost)
  }

  predicate Asked(s: State) { s.loop == LoopOut && s.stop == Lwip && s.mailbox != [] && Last(s.mailbox) == Barrier }

  function ToAsk(s: State): (n: nat)
    ensures n >= 1
  {
    match s.loop
    case QuiesceRing => 4 case QuiesceNetif => 3 case QuiesceAsk => 2 case QuiescePost => 1 case _ => 5
  }

  lemma AskingByLoop(s: State, step: TeardownStep)
    requires Asking(s) && TeardownEnabled(s, step) && NobodyInside(s, OnTeardown(step)) && Inv(DoTeardown(s, step))
    ensures var t := DoTeardown(s, step); Asked(t) || (Asking(t) && ToAsk(t) < ToAsk(s))
  {
    hide Inv, Fresh, Next32, Draining, Receiving, NobodyInside, BarrierOut;
    match step
    case PostBarrier(room) => AskingPosts(s, room);
    case CheckRingUsers =>
      AskingLooks(s);
      QuiesceIff(s);
    case CheckNetifUsers =>
      AskingLooks(s);
      QuiesceIff(s);
    case _ =>
  }

  lemma AskingPosts(s: State, room: bool)
    requires NobodyInside(s, OnTeardown(PostBarrier(room)))
    ensures room
  {
  }

  lemma AskingLooks(s: State)
    ensures NobodyInside(s, OnTeardown(CheckRingUsers)) ==> s.tx == TxOut && !Draining(s.usb)
    ensures NobodyInside(s, OnTeardown(CheckNetifUsers)) ==> !Receiving(s.usb)
  {
    hide Draining, Receiving;
  }

  lemma AskingNearer(s: State, step: Step)
    requires Asking(s) && Enabled(s, step) && NobodyInside(s, step)
    ensures var t := Do(s, step);
      Asked(t) || (Asking(t) && Nearer(Loops(step), ToAsk(s), ToAsk(t)))
  {
    assert Inv(s);
    StepKeeps(s, step);
    hide Inv, Fresh, Asked, ToAsk, DoTeardown, UpkeepEnabled, TeardownEnabled, NobodyInside;
    if step.OnTeardown? {
      hide Asking;
      AskingByLoop(s, step.teardown);
    } else if step.OnUpkeep? {
      TakingApartIsNoUpkeep(s, step.upkeep);
    } else {
      hide Do, Enabled;
      OthersSpareLoop(s, step);
      SameAsk(s, Do(s, step));
    }
  }

  lemma SameAsk(s: State, t: State)
    requires t.loop == s.loop
    ensures ToAsk(t) == ToAsk(s)
  {
  }

  /** Once nobody is inside, the next poll posts the barrier behind every frame. */
  lemma BarrierIsPosted(s: State, steps: seq<Step>)
    requires Inv(s) && s.stop == Quiesce && s.loop == LoopOut
    requires Runs(s, steps) && Along(s, steps, NobodyInside) && Own(steps, Loops) >= 5
    ensures Reaches(s, steps, Asked)
  {
    assert Asking(s) && ToAsk(s) == 5;
    hide Inv, Do, Enabled, Asking, Asked, ToAsk, NobodyInside, Loops;
    assert Nears(Asking, Asked, ToAsk, Loops, NobodyInside) by {
      forall u, step | Asking(u) && Enabled(u, step) && NobodyInside(u, step)
        ensures var t := Do(u, step);
          Asked(t) || (Asking(t) && Nearer(Loops(step), ToAsk(u), ToAsk(t)))
      {
        AskingNearer(u, step);
      }
    }
    Arrives(s, steps, Asking, Asked, ToAsk, Loops, NobodyInside);
  }

  // lwIP's mailbox

  predicate Msgs(step: Step) { step.OnMsg? }

  ghost predicate Queued(s: State) { Inv(s) && s.stop == Lwip && BarrierOut(s) }

  predicate HasRun(s: State) { s.stop == Lwip && s.mailbox == [] && s.msg == NoMsg && s.seen == s.asked }

  function ToRun(s: State): (n: nat)
    ensures n >= 1
  {
    1 + 3 * |s.mailbox|
    + match s.msg case NoMsg => 0 case Consuming(_) => 1 case InBarrier => 2 case BarrierRead(_) => 1
  }

  lemma QueuedByMsg(s: State, step: MsgStep)
    requires Queued(s) && MsgEnabled(s, step) && Inv(DoMsg(s, step))
    ensures var t := DoMsg(s, step); HasRun(t) || (Queued(t) && ToRun(t) < ToRun(s))
  {
    hide Counted, Phased, Owned, Held, Flowing, OnlyFrames, Wrap;
    if step == TakeMsg { assert s.mailbox == [s.mailbox[0]] + s.mailbox[1..]; }
    var t := DoMsg(s, step);
    if t.mailbox != [] { assert Last(t.mailbox) in t.mailbox; }
  }

  lemma QueuedNearer(s: State, step: Step)
    requires Queued(s) && Enabled(s, step) && Fresh(s, step)
    ensures var t := Do(s, step);
      HasRun(t) || (Queued(t) && Nearer(Msgs(step), ToRun(s), ToRun(t)))
  {
    StepKeeps(s, step);
    LwipIsAlone(s);
    hide Inv, Fresh, HasRun, DoMsg, DoUpkeep, UpkeepEnabled, MsgEnabled, TxEnabled, UsbEnabled, DoTx, DoUsb;
    match step
    case OnMsg(m) =>
      hide Queued, ToRun;
      QueuedByMsg(s, m);
    case OnTx(x) => TxTouchesOnlyItsOwn(s, x);
    case OnUsb(u) => UsbTouchesOnlyItsOwn(s, u);
    case OnUpkeep(k) => TakingApartIsNoUpkeep(s, k);
    case OnTeardown(d) => LwipIff(s);
  }

  /** While the barrier is waited for nothing is posted and the loop task only looks. */
  lemma LwipIsAlone(s: State)
    requires Inv(s) && s.stop == Lwip
    ensures s.loop == LoopOut && (s.usb.RecvLoaded? ==> s.usb.netif == 0)
    ensures forall d :: TeardownEnabled(s, d) ==> d == PollLwip
  {
    hide Counted, Owned, Posted, Flowing;
  }

  /** lwIP's task comes to the barrier, and then it has run. */
  lemma BarrierRuns(s: State, steps: seq<Step>)
    requires Inv(s) && s.stop == Lwip && BarrierOut(s)
    requires Runs(s, steps) && Along(s, steps, Fresh) && Own(steps, Msgs) >= ToRun(s)
    ensures Reaches(s, steps, HasRun)
  {
    assert Queued(s);
    hide Inv, Do, Enabled, Queued, HasRun, ToRun, Fresh, Msgs;
    assert Nears(Queued, HasRun, ToRun, Msgs, Fresh) by {
      forall u, step | Queued(u) && Enabled(u, step) && Fresh(u, step)
        ensures var t := Do(u, step);
          HasRun(t) || (Queued(t) && Nearer(Msgs(step), ToRun(u), ToRun(t)))
      {
        QueuedNearer(u, step);
      }
    }
    Arrives(s, steps, Queued, HasRun, ToRun, Msgs, Fresh);
  }

  // The end

  ghost predicate Ending(s: State) {
    && Inv(s)
    && ((s.stop == Lwip && !BarrierOut(s))
        || (s.stop == Finish && (s.loop == LoopOut || s.loop == FinishDestroy || s.loop == FinishFree)))
  }

  predicate GivenBack(s: State) {
    && s.loop == LoopOut && s.stop == Idle && !s.sUp && s.netifs == {} && s.rings == map[]
    && s.sNetif == 0 && s.sTxSlots == 0 && s.stopNetif == 0 && s.stopSlots == 0
  }

  function ToEnd(s: State): (n: nat)
    ensures n >= 1
  {
    if s.stop == Lwip then 4 else match s.loop case FinishDestroy => 2 case FinishFree => 1 case _ => 3
  }

  lemma EndingByLoop(s: State, step: TeardownStep)
    requires Ending(s) && TeardownEnabled(s, step) && Inv(DoTeardown(s, step))
    ensures var t := DoTeardown(s, step); GivenBack(t) || (Ending(t) && ToEnd(t) < ToEnd(s))
  {
    if s.stop == Lwip { LwipIsAlone(s); LwipIff(s); }
    hide Counted, Held, Posted, Flowing;
  }

  lemma EndingByOthers(s: State, step: Step)
    requires Ending(s) && Enabled(s, step) && !Loops(step) && Inv(Do(s, step))
    ensures var t := Do(s, step); Ending(t) && ToEnd(t) == ToEnd(s)
  {
    OthersSpareLoop(s, step);
    if s.stop == Lwip {
      LwipIsAlone(s);
      hide Inv, DoMsg, DoTx, DoUsb, DoUpkeep, DoTeardown, TxEnabled, UsbEnabled, MsgEnabled;
      match step
      case OnTx(x) => TxTouchesOnlyItsOwn(s, x);
      case OnUsb(u) => UsbTouchesOnlyItsOwn(s, u);
      case OnMsg(m) => NoBarrierToTake(s, m);
      case _ =>
    }
    hide Inv, Do, Enabled;
  }

  lemma NoBarrierToTake(s: State, step: MsgStep)
    requires MsgEnabled(s, step) && !BarrierOut(s)
    ensures !BarrierOut(DoMsg(s, step))
  {
  }

  lemma EndingNearer(s: State, step: Step)
    requires Ending(s) && Enabled(s, step) && Fresh(s, step)
    ensures var t := Do(s, step);
      GivenBack(t) || (Ending(t) && Nearer(Loops(step), ToEnd(s), ToEnd(t)))
  {
    assert Inv(s);
    StepKeeps(s, step);
    EndingPlaces(s);
    hide Inv, Fresh, Ending, GivenBack, ToEnd, DoTeardown, UpkeepEnabled, TeardownEnabled;
    if step.OnTeardown? {
      EndingByLoop(s, step.teardown);
    } else if step.OnUpkeep? {
      TakingApartIsNoUpkeep(s, step.upkeep);
    } else {
      hide Do, Enabled;
      EndingByOthers(s, step);
    }
  }

  lemma EndingPlaces(s: State)
    requires Ending(s)
    ensures s.loop == FinishDestroy || s.loop == FinishFree || (s.loop == LoopOut && s.stop != Idle)
  {
    if s.stop == Lwip { LwipIsAlone(s); }
    hide Inv;
  }

  /** With the barrier run, the next polls destroy the interface and free the ring, and
      nothing is left. */
  lemma TeardownCompletes(s: State, steps: seq<Step>)
    requires Inv(s) && s.stop == Lwip && !BarrierOut(s)
    requires Runs(s, steps) && Along(s, steps, Fresh) && Own(steps, Loops) >= 4
    ensures Reaches(s, steps, GivenBack)
  {
    assert Ending(s) && ToEnd(s) == 4;
    hide Inv, Do, Enabled, Ending, GivenBack, ToEnd, Fresh, Loops;
    assert Nears(Ending, GivenBack, ToEnd, Loops, Fresh) by {
      forall u, step | Ending(u) && Enabled(u, step) && Fresh(u, step)
        ensures var t := Do(u, step);
          GivenBack(t) || (Ending(t) && Nearer(Loops(step), ToEnd(u), ToEnd(t)))
      {
        EndingNearer(u, step);
      }
    }
    Arrives(s, steps, Ending, GivenBack, ToEnd, Loops, Fresh);
  }
}
