/** What the reader and the loop task of src/net/PppUart.cpp get done.

    `PppHandover` says what never happens; this says what does: within how many of
    its own steps a task reaches what it is for, whatever the other tasks do between
    them and however they are interleaved. */
module PppProgress {
  import opened Bytes
  import opened PppHandover
  import A = PppArbiters

  // ---------------------------------------------------------------------
  // Runs that get somewhere
  // ---------------------------------------------------------------------

  /** Every step of the run is one `ok` allows where it is taken. */
  ghost predicate Along(s: State, steps: seq<Step>, ok: (State, Step) -> bool)
    requires Runs(s, steps)
  {
    steps == [] || (Along(s, Init(steps), ok) && ok(After(s, Init(steps)), Last(steps)))
  }

  /** Somewhere along the run, its beginning and its end included. */
  ghost predicate Reaches(s: State, steps: seq<Step>, goal: State -> bool)
    requires Runs(s, steps)
  {
    goal(After(s, steps)) || (steps != [] && Reaches(s, Init(steps), goal))
  }

  lemma {:induction false} ReachesMeans(s: State, steps: seq<Step>, goal: State -> bool) returns (k: nat)
    requires Runs(s, steps) && Reaches(s, steps, goal)
    ensures k <= |steps| && Runs(s, steps[..k]) && goal(After(s, steps[..k]))
  {
    hide Enabled, Do;
    if goal(After(s, steps)) {
      k := |steps|;
      assert steps[..k] == steps;
    } else {
      k := ReachesMeans(s, Init(steps), goal);
      assert Init(steps)[..k] == steps[..k];
    }
  }

  /** A step either arrives, or stays on the way, and a step of one's own is one
      nearer. */
  ghost predicate Nears(on: State -> bool, goal: State -> bool, left: State -> nat,
                        own: Step -> bool, ok: (State, Step) -> bool)
  {
    forall s, step :: on(s) && Enabled(s, step) && ok(s, step) ==>
      var t := Do(s, step);
      goal(t) || (on(t) && Nearer(own(step), left(s), left(t)))
  }

  /** So enough steps of one's own arrive. */
  lemma {:induction false} Arrives(s: State, steps: seq<Step>, on: State -> bool, goal: State -> bool,
                                   left: State -> nat, own: Step -> bool, ok: (State, Step) -> bool)
    requires Nears(on, goal, left, own, ok)
    requires on(s) && Runs(s, steps) && Along(s, steps, ok)
    ensures Reaches(s, steps, goal) || (on(After(s, steps)) && left(After(s, steps)) + Own(steps, own) <= left(s))
  {
    hide Enabled, Do;
    if steps != [] { Arrives(s, Init(steps), on, goal, left, own, ok); }
  }

  // ---------------------------------------------------------------------
  // The reader's own
  // ---------------------------------------------------------------------

  predicate Readers(step: Step) { step.Read? }

  /** What the other tasks leave alone while there is a reader, and what they cannot
      take back. */
  lemma OthersSpareReader(s: State, step: Step)
    requires Inv(s) && s.reader != Absent && Enabled(s, step) && !step.Read?
    ensures var t := Do(s, step);
      && t.reader == s.reader && t.rv == s.rv && t.port == s.port && t.log == s.log && t.heap == s.heap
      && (t.flags.dead <==> s.flags.dead || step.DeadPhase?) && (s.flags.tearingDown ==> t.flags.tearingDown)
      && (s.flags.stop ==> t.flags.stop) && (s.flags.closing ==> t.flags.closing)
  {
    hide Sessions, Latest, Owned, Waits;
    ReaderHasNetif(s);
    TearsOnlyAlone(s);
  }

  // ---------------------------------------------------------------------
  // A session that is to end ends
  // ---------------------------------------------------------------------

  /** PPP has the port, or the reader is in the middle of taking it back. */
  predicate InSession(s: State) {
    && s.reader != Absent && !Leaving(s.reader)
    && (s.port.arbiter || s.reader == Finish(FinOwner) || s.reader == Finish(FinMute))
  }

  /** Past `finish`: the console owns the port, the log is back, nothing is started. */
  predicate Ended(s: State) { s.reader == Body && Closed(s) }

  function FinLeft(pc: FinPc): nat {
    match pc
    case FinStarted => 8 case FinNetif => 7 case FinLoad => 6 case FinCall => 5
    case FinClear => 4 case FinArbiter => 3 case FinOwner => 2 case FinMute => 1
  }

  function SvcLeft(pc: SvcPc): nat {
    match pc
    case LoadEnabled => 17 case LoadClosing => 16 case LoadTearing => 15 case LoadBuilt => 14
    case Allow => 13 case ClearDead => 12 case Decide => 12 case LoadForStop => 11
    case CallStop => 10 case ExchangeDead => 9
  }

  function TakeLeft(pc: TakePc): nat {
    match pc
    case TakeCall => 26 case TakeLoad => 27 case TakeStore => 28 case TakeStarted => 29
    case TakeNetif => 30 case TakeMute => 31 case TakeOwner => 32
  }

  /** How many of the reader's own steps are left to the end of `finish`, at most. */
  function ToEnd(s: State): (n: nat)
    ensures 1 <= n <= 33
  {
    match s.reader
    case Finish(pc) => FinLeft(pc)
    case Service(pc) => SvcLeft(pc)
    case Reading => 18
    case Top => 19
    case Receive(pc) =>
      (if s.rv.rest != [] then 3 else 0) + (match pc case RxCall => 20 case RxLoad => 21 case RxStarted => 22)
    case Body => 23
    case Take(pc) => TakeLeft(pc)
    case _ => 33
  }

  lemma FinishNearer(s: State)
    requires Sessions(s) && Phased(s) && s.reader.Finish? && InSession(s)
    ensures var t := DoFinish(s, s.reader.fin); Ended(t) || (t.reader.Finish? && InSession(t) && ToEnd(t) < ToEnd(s))
  {
    hide InTake, InTear, InService, Built;
    ReaderHasNetif(s);
    hide Phased;
  }

  /** `service` ends the session when the dead phase was reported, or when the time
      the host was given has run out. */
  lemma ServiceNearer(s: State, yes: bool)
    requires Sessions(s) && s.reader.Service? && InSession(s)
    requires s.reader == Service(ExchangeDead) ==> s.flags.dead || (s.port.stopping && yes)
    ensures var t := DoService(s, s.reader.svc, yes);
      && InSession(t) && ToEnd(t) < ToEnd(s)
      && (t.flags.dead == s.flags.dead || t.reader.Finish?)
      && (t.reader == Service(ExchangeDead) && (s.reader == Service(Decide) ==> !s.rv.wanted || yes || s.port.stopping)
          ==> t.port.stopping)
  {
    hide InTake, InTear, InFinish;
  }

  lemma RestNearer(s: State, data: seq<byte>, yes: bool)
    requires Sessions(s) && InSession(s) && !s.flags.stop && !s.reader.Service? && !s.reader.Finish?
    ensures var t := DoReader(s, data, yes); InSession(t) && ToEnd(t) < ToEnd(s) && t.flags == s.flags
  {
    hide InTear, InFinish, InService, DoService, DoFinish;
  }

  lemma ReaderNearer(s: State, data: seq<byte>, yes: bool)
    requires Inv(s) && InSession(s) && !s.flags.stop
    requires s.reader == Service(ExchangeDead) ==> s.flags.dead || (s.port.stopping && yes)
    ensures var t := DoReader(s, data, yes);
      || Ended(t)
      || (InSession(t) && ToEnd(t) < ToEnd(s)
          && (s.flags.dead || s.reader.Finish? ==> t.flags.dead || t.reader.Finish?))
  {
    hide Sessions, Phased, Owned, Latest, Waits, InSession, Ended, ToEnd, DoService, DoFinish;
    if s.reader.Service? { ServiceNearer(s, yes); }
    else if s.reader.Finish? { FinishNearer(s); }
    else { RestNearer(s, data, yes); }
  }

  /** The host has hung up, and the reader has not come to the end of it yet. */
  ghost predicate HungUp(s: State) { Inv(s) && InSession(s) && (s.flags.dead || s.reader.Finish?) }

  predicate NotAsked(s: State, step: Step) { !s.flags.stop }

  lemma HungUpNearer(s: State, step: Step)
    requires HungUp(s) && Enabled(s, step) && NotAsked(s, step)
    ensures var t := Do(s, step);
      Ended(t) || (HungUp(t) && Nearer(Readers(step), ToEnd(s), ToEnd(t)))
  {
    hide Inv, Ended, DoReader, DoLoop;
    StepKeeps(s, step);
    if step.Read? {
      hide InSession, ToEnd;
      if s.reader == Service(ExchangeDead) { DeadOrFinish(s); }
      ReaderNearer(s, step.data, step.yes);
    } else {
      hide Do;
      OthersSpareReader(s, step);
    }
  }

  lemma DeadOrFinish(s: State)
    requires HungUp(s) && s.reader.Service?
    ensures s.flags.dead
  {
    hide Inv;
  }

  /** A host that hangs up gives the port back: once the dead phase is reported in a
      session, the reader's own next steps, 33 at most, take it through `finish`. */
  lemma HangUpIsServed(s: State, steps: seq<Step>)
    requires Inv(s) && InSession(s)
    requires Runs(Do(s, DeadPhase), steps) && Along(Do(s, DeadPhase), steps, NotAsked)
    requires Own(steps, Readers) >= ToEnd(s)
    ensures Reaches(Do(s, DeadPhase), steps, Ended)
  {
    HangUpBegins(s);
    hide Inv, Do, Enabled, Ended, InSession;
    assert Nears(HungUp, Ended, ToEnd, Readers, NotAsked) by {
      hide HungUp, ToEnd, NotAsked, Readers;
      forall u, step | HungUp(u) && Enabled(u, step) && NotAsked(u, step)
        ensures var t := Do(u, step);
          Ended(t) || (HungUp(t) && Nearer(Readers(step), ToEnd(u), ToEnd(t)))
      {
        HungUpNearer(u, step);
      }
    }
    Arrives(Do(s, DeadPhase), steps, HungUp, Ended, ToEnd, Readers, NotAsked);
  }

  lemma HangUpBegins(s: State)
    requires Inv(s) && InSession(s)
    ensures HungUp(Do(s, DeadPhase)) && ToEnd(Do(s, DeadPhase)) == ToEnd(s)
  {
    StepKeeps(s, DeadPhase);
    hide Inv, DoReader, DoLoop;
  }

  /** The loads of `service` have found, or will find, that PPP may not have the port. */
  predicate Unwanted(s: State) {
    && (s.flags.tearingDown || s.flags.closing)
    && match s.reader
       case Service(pc) =>
         pc == LoadEnabled || pc == LoadClosing || (pc == LoadTearing && s.flags.tearingDown)
         || (pc != LoadTearing && pc != LoadBuilt && !s.rv.wanted && (pc == ExchangeDead ==> s.port.stopping))
       case _ => true
  }

  /** The switch is off, or the node about to restart, and the reader has not come to
      the end of the session yet. */
  ghost predicate SwitchedOff(s: State) { Inv(s) && InSession(s) && (Unwanted(s) || s.reader.Finish?) }

  /** Whenever the reader looks, the time the host was given to answer has run out. */
  predicate GraceOver(s: State, step: Step) {
    !s.flags.stop && (step.Read? && s.reader == Service(ExchangeDead) ==> s.flags.dead || step.yes)
  }

  lemma UnwantedStays(s: State, data: seq<byte>, yes: bool)
    requires Sessions(s) && s.reader.Service? && InSession(s) && Unwanted(s)
    requires s.reader == Service(ExchangeDead) ==> s.flags.dead || yes
    ensures var t := DoReader(s, data, yes); Unwanted(t) || t.reader.Finish?
  {
    hide DoService, InTake, InTear, InFinish, Unwanted;
    ServiceUnwanted(s, s.reader.svc, yes);
  }

  lemma ServiceUnwanted(s: State, pc: SvcPc, yes: bool)
    requires InService(s, pc) && s.reader == Service(pc) && s.port.arbiter && Unwanted(s)
    requires pc == ExchangeDead ==> s.flags.dead || yes
    ensures var t := DoService(s, pc, yes); Unwanted(t) || t.reader.Finish?
  {
  }

  lemma SwitchedOffNearer(s: State, step: Step)
    requires SwitchedOff(s) && Enabled(s, step) && GraceOver(s, step)
    ensures var t := Do(s, step);
      Ended(t) || (SwitchedOff(t) && Nearer(Readers(step), ToEnd(s), ToEnd(t)))
  {
    hide Inv, Ended, DoReader, DoLoop;
    StepKeeps(s, step);
    if step.Read? {
      hide InSession, ToEnd;
      ReaderNearer(s, step.data, step.yes);
      if s.reader.Service? {
        SessionsOf(s);
        UnwantedStays(s, step.data, step.yes);
      } else {
        RestUnwanted(s, step.data, step.yes);
        if s.reader == Finish(FinMute) { MuteIsLast(s); }
      }
    } else {
      hide Do;
      OthersSpareReader(s, step);
    }
  }

  lemma MuteIsLast(s: State)
    requires Inv(s) && s.reader == Finish(FinMute)
    ensures Ended(DoReader(s, [], true)) && forall data, yes :: DoReader(s, data, yes) == DoReader(s, [], true)
  {
    hide Waits, Owned, Phased, Latest, InTake, InTear, InService;
  }

  lemma SessionsOf(s: State)
    requires Inv(s)
    ensures Sessions(s)
  {
  }

  lemma RestUnwanted(s: State, data: seq<byte>, yes: bool)
    requires !s.reader.Service? && !s.flags.stop && InSession(s) && (Unwanted(s) || s.reader.Finish?)
    ensures var t := DoReader(s, data, yes); Unwanted(t) || t.reader.Finish? || s.reader == Finish(FinMute)
  {
    hide Fed, RunAfter;
  }

  /** Before a restart the loop task asks for the end of a session, if there is one. */
  lemma RestartIsTold(s: State, yes: bool)
    requires Inv(s) && s.loop == LoopOut
    ensures !s.port.owner ==> Do(s, Shutdown) == s
    ensures s.port.owner ==> var t := DoLoop(Do(s, Shutdown), yes); t == s.(flags := s.flags.(closing := true))
  {
    hide Inv, DoReader, DoBuild, DoTear;
  }

  /** Switched off, or before a restart, the session ends as soon as the host's time
      is up, whether it answers or not. */
  lemma SwitchOffIsServed(s: State, steps: seq<Step>)
    requires Inv(s) && InSession(s) && s.reader == Top && (s.flags.tearingDown || s.flags.closing)
    requires Runs(s, steps) && Along(s, steps, GraceOver) && Own(steps, Readers) >= ToEnd(s)
    ensures Reaches(s, steps, Ended)
  {
    hide Inv, Do, Enabled, Ended, InSession;
    assert Nears(SwitchedOff, Ended, ToEnd, Readers, GraceOver) by {
      hide SwitchedOff, ToEnd, GraceOver, Readers;
      forall u, step | SwitchedOff(u) && Enabled(u, step) && GraceOver(u, step)
        ensures var t := Do(u, step);
          Ended(t) || (SwitchedOff(t) && Nearer(Readers(step), ToEnd(u), ToEnd(t)))
      {
        SwitchedOffNearer(u, step);
      }
    }
    Arrives(s, steps, SwitchedOff, Ended, ToEnd, Readers, GraceOver);
  }

  // ---------------------------------------------------------------------
  // Who may have the port
  // ---------------------------------------------------------------------

  /** What the loads so far have found, of a switch, a restart and a teardown that
      stand as they do. */
  ghost predicate Granting(s: State, on: bool, closing: bool, tearing: bool) {
    && Inv(s) && s.reader.Service?
    && match s.reader.svc
       case LoadEnabled => true
       case LoadClosing => on
       case LoadTearing => on && !closing
       case LoadBuilt => on && !closing && !tearing
       case Allow => s.rv.wanted == (on && !closing && !tearing) && (s.rv.wanted ==> s.rv.netif != 0)
       case _ => false
  }

  predicate Granted(s: State, on: bool, closing: bool, tearing: bool) {
    && (s.reader == Service(ClearDead) || s.reader == Service(Decide))
    && s.rv.allow == s.rv.wanted == (on && !closing && !tearing)
  }

  predicate FlagsAre(s: State, on: bool, closing: bool, tearing: bool) {
    s.flags.enabled == on && s.flags.closing == closing && s.flags.tearingDown == tearing
  }

  lemma GrantingNearer(s: State, step: Step, on: bool, closing: bool, tearing: bool)
    requires Granting(s, on, closing, tearing) && Enabled(s, step) && FlagsAre(s, on, closing, tearing)
    ensures var t := Do(s, step);
      || Granted(t, on, closing, tearing)
      || (Granting(t, on, closing, tearing) && Nearer(Readers(step), ToEnd(s), ToEnd(t)))
  {
    hide Sessions, Owned, Latest, Waits, DoLoop, DoFinish, DoFeed, DoTake, DoReceive;
    StepKeeps(s, step);
    ReaderHasNetif(s);
    hide Phased, Inv;
    if !step.Read? { OthersSpareReader(s, step); }
  }

  /** `service` lets PPP have the port exactly when the switch is on, the node is not
      about to restart and nothing is being taken apart. */
  lemma PermissionIff(s: State, steps: seq<Step>, on: bool, closing: bool, tearing: bool)
    requires Inv(s) && s.reader == Service(LoadEnabled)
    requires Runs(s, steps) && Along(s, steps, (u, _) => FlagsAre(u, on, closing, tearing))
    requires Own(steps, Readers) >= ToEnd(s)
    ensures Reaches(s, steps, u => Granted(u, on, closing, tearing))
  {
    hide Inv, Do, Enabled, FlagsAre, Granted;
    var ok := (u: State, step: Step) => FlagsAre(u, on, closing, tearing);
    var way := (u: State) => Granting(u, on, closing, tearing);
    var goal := (u: State) => Granted(u, on, closing, tearing);
    assert Nears(way, goal, ToEnd, Readers, ok) by {
      hide Granting, ToEnd, Readers;
      forall u, step | way(u) && Enabled(u, step) && ok(u, step)
        ensures var t := Do(u, step);
          goal(t) || (way(t) && Nearer(Readers(step), ToEnd(u), ToEnd(t)))
      {
        GrantingNearer(u, step, on, closing, tearing);
      }
    }
    Arrives(s, steps, way, goal, ToEnd, Readers, ok);
  }

  // ---------------------------------------------------------------------
  // A chunk while the console has the port
  // ---------------------------------------------------------------------

  /** What is left of a chunk after the byte that takes the port. */
  function Remaining(run: seq<byte>, rest: seq<byte>): seq<byte>
    requires Takes(run, rest)
    decreases |rest|
  {
    if Fed(run, rest[0], true).tookOver then rest[1..] else Remaining(RunAfter(run, rest[0], true), rest[1..])
  }

  /** It is what follows the first byte that completes a take-over word. */
  lemma {:induction false} RemainingIs(run: seq<byte>, rest: seq<byte>) returns (k: nat)
    requires Takes(run, rest)
    ensures k < |rest| && Remaining(run, rest) == rest[k + 1..]
    ensures A.Takeover(Holds(run, rest[..k]) + [rest[k]])
    ensures forall j :: 0 <= j < k ==> !A.Takeover(Holds(run, rest[..j]) + [rest[j]])
    decreases |rest|
  {
    assert Holds(run, rest[..0]) == run;
    hide A.Takeover, Fed, RunAfter, Holds;
    FedIsDecided(run, rest[0], true);
    if Fed(run, rest[0], true).tookOver {
      k := 0;
    } else {
      var next, tail := RunAfter(run, rest[0], true), rest[1..];
      k := RemainingIs(next, tail);
      HoldsNext(run, rest, k + 1);
      forall j | 0 < j <= k
        ensures !A.Takeover(Holds(run, rest[..j]) + [rest[j]])
      {
        HoldsNext(run, rest, j);
      }
      k := k + 1;
    }
  }

  lemma HoldsNext(run: seq<byte>, rest: seq<byte>, j: nat)
    requires 0 < j <= |rest|
    ensures Holds(run, rest[..j]) == Holds(RunAfter(run, rest[0], true), rest[1..][..j - 1])
  {
    hide RunAfter;
    assert rest[..j][1..] == rest[1..][..j - 1];
  }

  /** What the arbiter makes of the rest of a chunk: the port taken with so much of it
      left, or the run held at its end. */
  datatype Outcome = Taken(left: seq<byte>) | Kept(run: seq<byte>)

  function OutcomeOf(run: seq<byte>, rest: seq<byte>): Outcome {
    if Takes(run, rest) then Taken(Remaining(run, rest)) else Kept(Holds(run, rest))
  }

  lemma OutcomeStep(run: seq<byte>, rest: seq<byte>)
    requires rest != []
    ensures OutcomeOf(run, rest)
         == if Fed(run, rest[0], true).tookOver then Taken(rest[1..])
            else OutcomeOf(RunAfter(run, rest[0], true), rest[1..])
  {
    hide Fed, RunAfter;
    TakesNow(run, rest);
  }

  ghost predicate Routing(s: State, out: Outcome) {
    && Inv(s)
    && match s.reader
       case Feeding => s.rv.allow && OutcomeOf(s.rv.run, s.rv.rest) == out
       case Take(_) => out == Taken(s.rv.rest)
       case _ => false
  }

  /** The session is open and the rest of the chunk still to be delivered, or the
      console has the port and the run is held. */
  predicate Routed(s: State, out: Outcome) {
    match out
    case Taken(left) => s.reader == Receive(RxStarted) && Open(s) && s.rv.rest == left
    case Kept(run) => s.reader == Top && Closed(s) && s.rv.run == run
  }

  function ToRoute(s: State): (n: nat)
    ensures n >= 1
  {
    match s.reader
    case Feeding => 8 + |s.rv.rest|
    case Take(pc) => TakeLeft(pc) - 25
    case _ => 1
  }

  lemma FeedNearer(s: State, out: Outcome)
    requires Routing(s, out) && s.reader == Feeding && Sessions(s)
    ensures var t := DoFeed(s);
      Routed(t, out) || ((Inv(t) ==> Routing(t, out)) && ToRoute(t) < ToRoute(s))
  {
    hide Fed, RunAfter, Takes, OutcomeOf, Inv, InTake;
    if s.rv.rest != [] { OutcomeStep(s.rv.run, s.rv.rest); } else { NothingTaken(s.rv.run); }
  }

  lemma NothingTaken(run: seq<byte>)
    ensures OutcomeOf(run, []) == Kept(run)
  {
  }

  lemma TakeNearer(s: State, out: Outcome)
    requires Routing(s, out) && s.reader.Take? && Sessions(s) && Phased(s)
    ensures var t := DoTake(s, s.reader.take);
      Routed(t, out) || ((Inv(t) ==> Routing(t, out)) && ToRoute(t) < ToRoute(s))
  {
    hide Inv, InFinish, InTear, InService;
    ReaderHasNetif(s);
    hide Phased;
  }

  lemma RoutingNearer(s: State, step: Step, out: Outcome)
    requires Routing(s, out) && Enabled(s, step)
    ensures var t := Do(s, step);
      Routed(t, out) || (Routing(t, out) && Nearer(Readers(step), ToRoute(s), ToRoute(t)))
  {
    hide Sessions, Owned, Latest, Phased, Waits, DoLoop, DoFeed, DoTake, DoService, DoFinish, DoReceive;
    hide Routed, OutcomeOf;
    StepKeeps(s, step);
    if step.Read? {
      hide ToRoute;
      if s.reader == Feeding { FeedNearer(s, out); } else { TakeNearer(s, out); }
    } else {
      hide Inv;
      OthersSpareReader(s, step);
    }
  }

  /** Allowed, the first byte of a chunk that completes a take-over word opens a
      session, with the rest of the chunk for PPP; without such a byte the console
      keeps the port and what could still become one is held. */
  lemma ChunkIsRouted(s: State, steps: seq<Step>)
    requires Inv(s) && s.reader == Feeding && s.rv.allow
    requires Runs(s, steps) && Own(steps, Readers) >= 8 + |s.rv.rest|
    ensures Reaches(s, steps, u => Routed(u, OutcomeOf(s.rv.run, s.rv.rest)))
  {
    var out := OutcomeOf(s.rv.run, s.rv.rest);
    assert Routing(s, out) && ToRoute(s) == 8 + |s.rv.rest|;
    hide Inv, Do, Enabled, Routed, Routing, OutcomeOf, ToRoute, Readers;
    var ok := (u: State, step: Step) => true;
    var way := (u: State) => Routing(u, out);
    var goal := (u: State) => Routed(u, out);
    assert Nears(way, goal, ToRoute, Readers, ok) by {
      forall u, step | way(u) && Enabled(u, step) && ok(u, step)
        ensures var t := Do(u, step);
          goal(t) || (way(t) && Nearer(Readers(step), ToRoute(u), ToRoute(t)))
      {
        RoutingNearer(u, step, out);
      }
    }
    AlwaysAlong(s, steps);
    Arrives(s, steps, way, goal, ToRoute, Readers, ok);
  }

  lemma {:induction false} AlwaysAlong(s: State, steps: seq<Step>)
    requires Runs(s, steps)
    ensures Along(s, steps, (u, step) => true)
  {
    hide Enabled, Do;
    if steps != [] { AlwaysAlong(s, Init(steps)); }
  }

  // ---------------------------------------------------------------------
  // A chunk while PPP has the port
  // ---------------------------------------------------------------------

  /** How many times the rest of the pass is to hand bytes to esp_netif: once for the
      chunk, and once more for what came before a byte that took the port. */
  function Owing(s: State): nat {
    match s.reader
    case Receive(_) => if s.rv.rest != [] then 2 else 1
    case Take(_) => if s.rv.rest != [] then 2 else 1
    case Body => if s.port.arbiter && s.rv.rest != [] then 1 else 0
    case _ => 0
  }

  predicate Hands(s: State, step: Step) { step.Read? && s.reader == Receive(RxCall) }

  ghost function Handed(s: State, steps: seq<Step>): nat
    requires Runs(s, steps)
  {
    if steps == [] then 0
    else Handed(s, Init(steps)) + if Hands(After(s, Init(steps)), Last(steps)) then 1 else 0
  }

  /** In the part of a pass that delivers. */
  predicate Delivering(s: State) { s.reader.Receive? || s.reader.Take? || (s.reader == Body && s.port.arbiter) }

  lemma OwingStep(s: State, step: Step)
    requires Inv(s) && Delivering(s) && Enabled(s, step)
    ensures var t := Do(s, step); Owing(t) + (if Hands(s, step) then 1 else 0) == Owing(s)
    ensures var t := Do(s, step); Delivering(t) || t.reader == Top
    ensures Hands(s, step) ==> s.port.started && Called(s, step) == {s.heap.sNetif} && s.heap.sNetif != 0
  {
    hide Latest, Waits, DoLoop, DoService, DoFinish, DoFeed;
    ReaderHasNetif(s);
    hide Phased, InTear, InFinish, InService;
    if !step.Read? { OthersSpareReader(s, step); }
  }

  /** Every chunk of a session, the one that opens it included, is handed over whole
      and once, to the interface there is. */
  lemma {:induction false} ChunkIsHandedOver(s: State, steps: seq<Step>)
    requires Inv(s) && Delivering(s) && Runs(s, steps) && Along(s, steps, (u, _) => Delivering(u))
    ensures var t := After(s, steps); Inv(t) && Handed(s, steps) + Owing(t) == Owing(s)
    ensures var t := After(s, steps); (Delivering(t) || t.reader == Top) && (t.reader == Top ==> Owing(t) == 0)
  {
    hide Inv, Do, Enabled, Owing, Hands, Delivering;
    if steps == [] {
      OwingAtTop(s);
    } else {
      var t := After(s, Init(steps));
      ChunkIsHandedOver(s, Init(steps));
      StepKeeps(t, Last(steps));
      OwingStep(t, Last(steps));
      OwingAtTop(After(s, steps));
    }
  }

  lemma OwingAtTop(s: State)
    ensures s.reader == Top ==> Owing(s) == 0
  {
  }

  // ---------------------------------------------------------------------
  // A reader that is asked to leave leaves
  // ---------------------------------------------------------------------

  /** How many of its own steps an asked reader has left, at most. */
  function ToLeave(s: State): (n: nat)
    ensures n >= 1
  {
    match s.reader
    case Absent => 1
    case Unalive => 1
    case Clearing => 2
    case Top => 3
    case Receive(pc) =>
      (if s.rv.rest != [] then 7 else 4) + (match pc case RxCall => 0 case RxLoad => 1 case RxStarted => 2)
    case Take(pc) => TakeLeft(pc) - 16
    case Feeding => 17 + |s.rv.rest|
    case Body => 18 + |s.rv.rest|
    case Finish(pc) => 18 + FinLeft(pc) + |s.rv.rest|
    case Service(pc) => 18 + SvcLeft(pc) + |s.rv.rest|
    case Reading => 36 + CHUNK_MAX
  }

  ghost predicate Going(s: State) { Inv(s) && Asked(s) }

  predicate Gone(s: State) { s.reader == Absent && !s.flags.alive && s.lv.teardown == Reader }

  /** One step nearer, and still a reader. */
  predicate LeftLess(s: State, t: State) { ToLeave(t) < ToLeave(s) && t.lv == s.lv && t.reader != Absent }

  lemma ServiceLeaves(s: State, pc: SvcPc, yes: bool)
    requires s.reader == Service(pc)
    ensures LeftLess(s, DoService(s, pc, yes))
  {
  }

  lemma FinishLeaves(s: State, pc: FinPc)
    requires s.reader == Finish(pc)
    ensures LeftLess(s, DoFinish(s, pc))
  {
  }

  lemma TakeLeaves(s: State, pc: TakePc)
    requires s.reader == Take(pc)
    ensures LeftLess(s, DoTake(s, pc))
  {
  }

  lemma ReceiveLeaves(s: State, pc: RxPc)
    requires s.reader == Receive(pc)
    ensures LeftLess(s, DoReceive(s, pc))
  {
  }

  lemma FeedLeaves(s: State)
    requires s.reader == Feeding
    ensures LeftLess(s, DoFeed(s))
  {
    hide Fed, RunAfter;
  }

  lemma PassLeaves(s: State, data: seq<byte>, yes: bool)
    requires s.flags.stop && (s.reader == Top || s.reader == Reading || s.reader == Body || s.reader == Clearing)
    requires |data| <= CHUNK_MAX || s.reader != Reading
    ensures LeftLess(s, DoReader(s, data, yes))
  {
    hide DoService, DoFinish, DoTake, DoReceive, DoFeed;
  }

  lemma LastStep(s: State, data: seq<byte>, yes: bool)
    requires s.reader == Unalive
    ensures var t := DoReader(s, data, yes); t.lv == s.lv && t.reader == Absent && !t.flags.alive
  {
    hide DoService, DoFinish, DoTake, DoReceive, DoFeed;
  }

  lemma LeavesNearer(s: State, data: seq<byte>, yes: bool)
    requires Phased(s) && Asked(s) && (s.reader == Reading ==> |data| <= CHUNK_MAX)
    ensures var t := DoReader(s, data, yes);
      LeftLess(s, t) || (t.reader == Absent && t.lv == s.lv && !t.flags.alive)
  {
    hide DoService, DoFinish, DoTake, DoReceive, DoFeed, LeftLess;
    AskedIsTearing(s);
    hide Phased;
    match s.reader
    case Service(pc) => ServiceLeaves(s, pc, yes);
    case Finish(pc) => FinishLeaves(s, pc);
    case Take(pc) => TakeLeaves(s, pc);
    case Receive(pc) => ReceiveLeaves(s, pc);
    case Feeding => FeedLeaves(s);
    case Unalive =>
      hide DoReader;
      LastStep(s, data, yes);
    case _ =>
      hide DoReader;
      PassLeaves(s, data, yes);
  }

  lemma GoingNearer(s: State, step: Step)
    requires Going(s) && Enabled(s, step)
    ensures var t := Do(s, step);
      Gone(t) || (Going(t) && Nearer(Readers(step), ToLeave(s), ToLeave(t)))
  {
    hide Sessions, Owned, Latest, Waits, DoReader, DoLoop, Phased;
    StepKeeps(s, step);
    hide ToLeave;
    if step.Read? {
      LeavesNearer(s, step.data, step.yes);
    } else {
      hide Inv;
      OthersSpareReader(s, step);
      LoopOnlyLooks(s, step);
      SameToLeave(s, Do(s, step));
    }
  }

  lemma SameToLeave(s: State, t: State)
    requires t.reader == s.reader && t.rv == s.rv
    ensures ToLeave(t) == ToLeave(s)
  {
  }

  /** Asked to leave, the reader is gone after so many steps of its own, whatever it
      was in the middle of. */
  lemma ReaderLeaves(s: State, steps: seq<Step>)
    requires Inv(s) && Asked(s) && Runs(s, steps) && Own(steps, Readers) >= ToLeave(s)
    ensures Reaches(s, steps, Gone)
  {
    hide Inv, Do, Enabled, Gone, Going, Asked, ToLeave, Readers;
    var ok := (u: State, step: Step) => true;
    assert Nears(Going, Gone, ToLeave, Readers, ok) by {
      forall u, step | Going(u) && Enabled(u, step) && ok(u, step)
        ensures var t := Do(u, step);
          Gone(t) || (Going(t) && Nearer(Readers(step), ToLeave(u), ToLeave(t)))
      {
        GoingNearer(u, step);
      }
    }
    AlwaysAlong(s, steps);
    assert Going(s) by { GoingIs(s); }
    Arrives(s, steps, Going, Gone, ToLeave, Readers, ok);
  }

  lemma GoingIs(s: State)
    requires Inv(s) && Asked(s)
    ensures Going(s)
  {
  }

  // ---------------------------------------------------------------------
  // The loop task: building
  // ---------------------------------------------------------------------

  predicate Loops(step: Step) { step.Loop? }

  predicate Yes(s: State, step: Step) { step.Loop? ==> step.yes }

  /** A poll that is to build. */
  predicate ToBuild(s: State) {
    s.loop == Polling && s.lv.polled && s.lv.teardown == Idle && s.heap.sNetif == 0 && !s.lv.failed
  }

  /** An interface on offer, a reader at work, the console reading through it. */
  predicate Whole(s: State) {
    && s.loop == LoopOut && s.heap.sNetif != 0 && s.reader != Absent && s.flags.alive && s.lv.console == Through
    && !s.lv.failed && s.lv.teardown == Idle && !s.flags.closing && s.flags.enabled == s.lv.polled
  }

  /** Nothing left behind, and the failure remembered. */
  ghost predicate CameToNothing(s: State) { s.loop == LoopOut && s.lv.failed && GivenBack(s) }

  function BuildLeft(pc: BuildPc): nat {
    match pc
    case BuildNew => 11 case BuildStarted => 10 case BuildDead => 9 case BuildClosing => 8
    case BuildPublish => 7 case BuildStop => 6 case BuildAlive => 5 case BuildTask => 4
    case UndoAlive => 3 case UndoNetif => 2 case UndoDestroy => 1 case BuildConsole => 1
  }

  function ToBuilt(s: State): (n: nat)
    ensures n >= 1
  {
    if s.loop.Build? then BuildLeft(s.loop.build) else 12
  }

  predicate Undoing(loop: LoopPc) {
    loop.Build? && (loop.build == UndoAlive || loop.build == UndoNetif || loop.build == UndoDestroy)
  }

  predicate Cleared(pc: BuildPc) {
    pc == BuildPublish || pc == BuildStop || pc == BuildAlive || pc == BuildTask || pc == BuildConsole
  }

  ghost predicate Building(s: State) {
    && Inv(s) && s.lv.teardown == Idle && s.flags.enabled == s.lv.polled
    && (ToBuild(s) || (s.loop.Build? && (Cleared(s.loop.build) ==> !s.flags.closing)))
  }

  lemma PollBuilds(s: State)
    requires Building(s) && s.loop == Polling && Inv(Branch(s))
    ensures var t := Branch(s); Building(t) && ToBuilt(t) < ToBuilt(s) && !Undoing(t.loop)
  {
    hide Inv;
  }

  lemma ConsoleIsLast(s: State, yes: bool)
    requires Building(s) && s.loop == Build(BuildConsole)
    ensures Whole(DoBuild(s, BuildConsole, yes))
  {
    BuildingIsPhased(s);
    hide Inv;
  }

  lemma FailureIsLast(s: State, yes: bool)
    requires Building(s) && s.loop.Build? && Inv(DoBuild(s, s.loop.build, yes))
    requires s.loop == Build(UndoDestroy) || (s.loop == Build(BuildNew) && !yes)
    ensures CameToNothing(DoBuild(s, s.loop.build, yes))
  {
    BuildingIsPhased(s);
    var t := DoBuild(s, s.loop.build, yes);
    hide Inv, GivenBack;
    IdleIsGivenBack(t);
  }

  lemma RestBuilds(s: State, pc: BuildPc, yes: bool)
    requires Building(s) && s.loop == Build(pc) && Inv(DoBuild(s, pc, yes))
    requires pc != BuildConsole && pc != UndoDestroy && (pc == BuildNew ==> yes)
    ensures var t := DoBuild(s, pc, yes); Building(t) && ToBuilt(t) < ToBuilt(s)
    ensures yes && !Undoing(s.loop) ==> !Undoing(DoBuild(s, pc, yes).loop)
  {
    hide Inv;
  }

  lemma BuildingNearer(s: State, yes: bool)
    requires Building(s) && Inv(DoLoop(s, yes))
    ensures var t := DoLoop(s, yes);
      Whole(t) || CameToNothing(t) || (Building(t) && ToBuilt(t) < ToBuilt(s))
    ensures var t := DoLoop(s, yes); yes && !Undoing(s.loop) ==> Whole(t) || (Building(t) && !Undoing(t.loop))
  {
    hide Inv, Branch, DoBuild, DoTear, Whole, CameToNothing, ToBuilt, Undoing;
    if s.loop == Polling {
      PollBuilds(s);
    } else {
      BuildingAt(s);
      if s.loop == Build(BuildConsole) { ConsoleIsLast(s, yes); }
      else if s.loop == Build(UndoDestroy) || (s.loop == Build(BuildNew) && !yes) { FailureIsLast(s, yes); }
      else { RestBuilds(s, s.loop.build, yes); }
    }
  }

  lemma BuildingAt(s: State)
    requires Building(s)
    ensures s.loop == Polling || s.loop.Build?
    ensures s.loop == Build(UndoDestroy) ==> Undoing(s.loop)
  {
    hide Inv;
  }

  lemma BuildingIsPhased(s: State)
    requires Inv(s) && s.lv.teardown == Idle
    ensures Built(s)
  {
    hide Sessions, Latest, Waits, Owned, Built;
  }

  lemma OthersSpareBuilding(s: State, step: Step)
    requires Building(s) && Enabled(s, step) && !step.Loop? && Inv(Do(s, step))
    ensures var t := Do(s, step); Building(t) && ToBuilt(t) == ToBuilt(s) && t.loop == s.loop
  {
    hide Inv, DoService, DoFinish, DoReceive, DoTake, DoFeed, DoLoop;
    if step.Read? { InsideBuild(s, step.data, step.yes); }
  }

  lemma InsideBuild(s: State, data: seq<byte>, yes: bool)
    ensures var t := DoReader(s, data, yes);
      && t.loop == s.loop && t.lv == s.lv && t.heap == s.heap
      && t.flags.enabled == s.flags.enabled && t.flags.closing == s.flags.closing
  {
    hide DoService, DoFinish, DoReceive, DoTake, DoFeed;
    if !(s.reader == Top || Leaving(s.reader) || s.reader == Absent) {
      hide DoReader;
      InsideReader(s, data, yes);
    }
  }

  lemma BuildingStep(s: State, step: Step)
    requires Building(s) && Enabled(s, step)
    ensures var t := Do(s, step);
      || Whole(t) || CameToNothing(t)
      || (Building(t) && Nearer(Loops(step), ToBuilt(s), ToBuilt(t)))
    ensures var t := Do(s, step); Yes(s, step) && !Undoing(s.loop) ==> Whole(t) || (Building(t) && !Undoing(t.loop))
  {
    hide Inv, DoReader, DoLoop, Whole, CameToNothing, ToBuilt, Undoing;
    assert Inv(s);
    StepKeeps(s, step);
    hide Building;
    if step.Loop? { BuildingNearer(s, step.yes); } else { OthersSpareBuilding(s, step); }
  }

  /** Given memory and a task, a poll that finds the switch on and nothing built, and no
      failure to forget, builds the interface, the reader and the console's way through. */
  lemma BuildGoesThrough(s: State, steps: seq<Step>)
    requires Inv(s) && s.loop == LoopOut && s.lv.teardown == Idle && s.heap.sNetif == 0 && !s.lv.failed
    requires Runs(Do(s, Poll(true)), steps) && Along(Do(s, Poll(true)), steps, Yes) && Own(steps, Loops) >= 12
    ensures Reaches(Do(s, Poll(true)), steps, Whole)
  {
    PollBegins(s);
    hide Inv, Do, Enabled, BuildingUp, Whole, ToBuilt, Yes, Loops;
    assert Nears(BuildingUp, Whole, ToBuilt, Loops, Yes) by {
      forall u, step | BuildingUp(u) && Enabled(u, step) && Yes(u, step)
        ensures var t := Do(u, step);
          Whole(t) || (BuildingUp(t) && Nearer(Loops(step), ToBuilt(u), ToBuilt(t)))
      {
        BuildingUpStep(u, step);
      }
    }
    Arrives(Do(s, Poll(true)), steps, BuildingUp, Whole, ToBuilt, Loops, Yes);
  }

  ghost predicate BuildingUp(s: State) { Building(s) && !Undoing(s.loop) }

  lemma BuildingUpStep(s: State, step: Step)
    requires BuildingUp(s) && Enabled(s, step) && Yes(s, step)
    ensures var t := Do(s, step);
      Whole(t) || (BuildingUp(t) && Nearer(Loops(step), ToBuilt(s), ToBuilt(t)))
  {
    hide Building, Do, Enabled, Whole, ToBuilt, Undoing, Yes, CameToNothing, Loops;
    BuildingStep(s, step);
    if CameToNothing(Do(s, step)) { NothingIsNotBuilding(Do(s, step)); }
  }

  lemma NothingIsNotBuilding(s: State)
    requires CameToNothing(s)
    ensures !Building(s)
  {
    hide Inv, GivenBack;
  }

  lemma PollBegins(s: State)
    requires Inv(s) && s.loop == LoopOut && s.lv.teardown == Idle && s.heap.sNetif == 0 && !s.lv.failed
    ensures var t := Do(s, Poll(true)); Building(t) && BuildingUp(t) && ToBuilt(t) == 12
  {
    assert Enabled(s, Poll(true));
    StepKeeps(s, Poll(true));
    hide Inv, DoLoop, DoReader;
  }

  /** Whatever is refused on the way, nothing half built is left. */
  lemma BuildEnds(s: State, steps: seq<Step>)
    requires Inv(s) && s.loop == LoopOut && s.lv.teardown == Idle && s.heap.sNetif == 0 && !s.lv.failed
    requires Runs(Do(s, Poll(true)), steps) && Own(steps, Loops) >= 12
    ensures Reaches(Do(s, Poll(true)), steps, u => Whole(u) || CameToNothing(u))
  {
    var ok := (u: State, step: Step) => true;
    var goal := (u: State) => Whole(u) || CameToNothing(u);
    PollBegins(s);
    hide Inv, Do, Enabled, Building, Whole, CameToNothing, ToBuilt, Undoing, Loops;
    assert Nears(Building, goal, ToBuilt, Loops, ok) by {
      forall u, step | Building(u) && Enabled(u, step) && ok(u, step)
        ensures var t := Do(u, step);
          goal(t) || (Building(t) && Nearer(Loops(step), ToBuilt(u), ToBuilt(t)))
      {
        BuildingStep(u, step);
      }
    }
    AlwaysAlong(Do(s, Poll(true)), steps);
    Arrives(Do(s, Poll(true)), steps, Building, goal, ToBuilt, Loops, ok);
  }

  // ---------------------------------------------------------------------
  // The loop task: taking apart
  // ---------------------------------------------------------------------

  /** On the way to asking the reader to leave. */
  ghost predicate Telling(s: State) {
    && Inv(s)
    && match s.loop
       case Polling => (s.lv.teardown == Idle && !s.lv.polled && s.heap.sNetif != 0) || s.lv.teardown == Session
       case StopFlag => s.lv.teardown == Idle
       case StepSession => s.lv.teardown == Session
       case StepAsk => s.lv.teardown == Session
       case _ => false
  }

  predicate Told(s: State) { s.loop == LoopOut && Asked(s) && s.flags.stop && s.flags.tearingDown }

  function ToTell(s: State): (n: nat)
    ensures n >= 1
  {
    match s.loop
    case Polling => 4 case StopFlag => 3 case StepSession => 2 case _ => 1
  }

  /** When the loop task looks, the port is the console's or the session's time is up. */
  predicate SessionOver(s: State, step: Step) { step.Loop? && s.loop == StepSession ==> !s.port.owner || step.yes }

  lemma TellingNearer(s: State, step: Step)
    requires Telling(s) && Enabled(s, step) && SessionOver(s, step)
    ensures var t := Do(s, step);
      Told(t) || (Telling(t) && Nearer(Loops(step), ToTell(s), ToTell(t)))
  {
    hide Sessions, Owned, Latest, Waits, DoReader, DoBuild, DoTear;
    StepKeeps(s, step);
    hide Phased;
    hide Inv;
    if step.Loop? { TellingHasReader(s); } else if step.Read? { InsideTelling(s, step.data, step.yes); }
  }

  lemma TellingHasReader(s: State)
    requires Telling(s)
    ensures s.reader != Absent && s.heap.sNetif != 0 && (s.lv.teardown == Session ==> s.flags.tearingDown)
  {
    hide Sessions, Owned, Latest, Waits;
  }

  lemma InsideTelling(s: State, data: seq<byte>, yes: bool)
    ensures var t := DoReader(s, data, yes); t.loop == s.loop && t.lv == s.lv && t.heap == s.heap
  {
    hide DoService, DoFinish, DoReceive, DoTake, DoFeed;
    if !(s.reader == Top || Leaving(s.reader) || s.reader == Absent) {
      hide DoReader;
      InsideReader(s, data, yes);
    }
  }

  /** Switched off, or in the middle of taking apart, a poll asks the reader to leave
      as soon as the session is over. */
  lemma SwitchOffIsTold(s: State, on: bool, steps: seq<Step>)
    requires Inv(s) && s.loop == LoopOut
    requires if s.lv.teardown == Idle then !on && s.heap.sNetif != 0 else s.lv.teardown == Session
    requires Runs(Do(s, Poll(on)), steps) && Along(Do(s, Poll(on)), steps, SessionOver) && Own(steps, Loops) >= 4
    ensures Reaches(Do(s, Poll(on)), steps, Told)
  {
    TellingBegins(s, on);
    hide Inv, Do, Enabled, Telling, Told, ToTell, SessionOver, Loops;
    assert Nears(Telling, Told, ToTell, Loops, SessionOver) by {
      forall u, step | Telling(u) && Enabled(u, step) && SessionOver(u, step)
        ensures var t := Do(u, step);
          Told(t) || (Telling(t) && Nearer(Loops(step), ToTell(u), ToTell(t)))
      {
        TellingNearer(u, step);
      }
    }
    Arrives(Do(s, Poll(on)), steps, Telling, Told, ToTell, Loops, SessionOver);
  }

  lemma TellingBegins(s: State, on: bool)
    requires Inv(s) && s.loop == LoopOut
    requires if s.lv.teardown == Idle then !on && s.heap.sNetif != 0 else s.lv.teardown == Session
    ensures var t := Do(s, Poll(on)); Telling(t) && ToTell(t) == 4
  {
    assert Enabled(s, Poll(on));
    StepKeeps(s, Poll(on));
    hide Inv, DoLoop, DoReader;
  }

  /** When the loop task looks, the session still has the port and time is not up. */
  predicate SessionGoesOn(s: State, step: Step) { step.Loop? && s.loop == StepSession ==> s.port.owner && !step.yes }

  /** Until then it does not: a session that is not over is waited for. */
  lemma {:induction false} SessionIsWaitedFor(s: State, steps: seq<Step>)
    requires Inv(s) && s.lv.teardown == Session && s.loop != StepAsk && Runs(s, steps)
    requires Along(s, steps, SessionGoesOn)
    ensures var t := After(s, steps); Inv(t) && t.lv.teardown == Session && t.loop != StepAsk && !t.flags.stop
  {
    hide Inv, Do, Enabled;
    if steps == [] {
      SessionIsNotAsked(s);
    } else {
      var t := After(s, Init(steps));
      SessionIsWaitedFor(s, Init(steps));
      StepKeeps(t, Last(steps));
      SessionStays(t, Last(steps));
      SessionIsNotAsked(After(s, steps));
    }
  }

  lemma SessionIsNotAsked(s: State)
    requires Inv(s) && s.lv.teardown == Session
    ensures !s.flags.stop
  {
    hide Sessions, Owned, Latest, Waits;
  }

  lemma SessionStays(s: State, step: Step)
    requires Inv(s) && s.lv.teardown == Session && s.loop != StepAsk && Enabled(s, step)
    requires step.Loop? && s.loop == StepSession ==> s.port.owner && !step.yes
    ensures var t := Do(s, step); t.lv.teardown == Session && t.loop != StepAsk
  {
    hide Sessions, Owned, Latest, Waits, DoReader, DoBuild, DoTear;
    if step.Read? { hide Inv; InsideTelling(s, step.data, step.yes); }
  }

  /** The reader is gone and the loop task on its way through what is left. */
  ghost predicate TakingApart(s: State) {
    && Inv(s) && s.lv.teardown == Reader && s.reader == Absent
    && (s.loop == Polling || s.loop == StepReader || s.loop == TearLoad || s.loop.Tear?)
  }

  ghost predicate ApartAndBack(s: State) { s.loop == LoopOut && s.lv.teardown == Idle && GivenBack(s) }

  function TearLeft(pc: TearPc): nat {
    match pc
    case TearSwap => 11 case TearStop => 10 case TearDestroy => 9 case TearArbiter => 8 case TearOwner => 7
    case TearMute => 6 case TearStarted => 5 case TearStopping => 4 case TearDead => 3 case TearConsole => 2
    case TearFlag => 1
  }

  function ToApart(s: State): (n: nat)
    ensures n >= 1
  {
    match s.loop
    case Tear(pc) => TearLeft(pc)
    case TearLoad => 12 case StepReader => 13 case _ => 14
  }

  lemma TakingApartNearer(s: State, step: Step)
    requires TakingApart(s) && Enabled(s, step)
    ensures var t := Do(s, step);
      || ApartAndBack(t)
      || (TakingApart(t) && Nearer(Loops(step), ToApart(s), ToApart(t)))
  {
    hide Sessions, Owned, Latest, Waits, DoReader, DoBuild, GivenBack;
    StepKeeps(s, step);
    if step.Loop? && s.loop == Tear(TearFlag) { TeardownGivesBack(s, step.yes); }
  }

  /** With the reader gone, the next poll and what follows it give everything back. */
  lemma TeardownCompletes(s: State, on: bool, steps: seq<Step>)
    requires Inv(s) && s.loop == LoopOut && s.lv.teardown == Reader && s.reader == Absent
    requires Runs(Do(s, Poll(on)), steps) && Own(steps, Loops) >= 14
    ensures Reaches(Do(s, Poll(on)), steps, ApartAndBack)
  {
    var ok := (u: State, step: Step) => true;
    TakingApartBegins(s, on);
    hide Inv, Do, Enabled, TakingApart, ApartAndBack, ToApart, Loops;
    assert Nears(TakingApart, ApartAndBack, ToApart, Loops, ok) by {
      forall u, step | TakingApart(u) && Enabled(u, step) && ok(u, step)
        ensures var t := Do(u, step);
          || ApartAndBack(t)
          || (TakingApart(t) && Nearer(Loops(step), ToApart(u), ToApart(t)))
      {
        TakingApartNearer(u, step);
      }
    }
    AlwaysAlong(Do(s, Poll(on)), steps);
    Arrives(Do(s, Poll(on)), steps, TakingApart, ApartAndBack, ToApart, Loops, ok);
  }

  lemma TakingApartBegins(s: State, on: bool)
    requires Inv(s) && s.loop == LoopOut && s.lv.teardown == Reader && s.reader == Absent
    ensures var t := Do(s, Poll(on)); TakingApart(t) && ToApart(t) == 14
  {
    assert Enabled(s, Poll(on));
    StepKeeps(s, Poll(on));
    hide Inv, DoLoop, DoReader;
  }

  // ---------------------------------------------------------------------
  // What stays as it is
  // ---------------------------------------------------------------------

  /** Switched on, the host still there, and nobody to end the session. */
  predicate HostIsThere(s: State, step: Step) {
    FlagsAre(s, true, false, false) && !step.DeadPhase? && (step.Read? && s.reader == Service(Decide) ==> !step.yes)
  }

  ghost predicate Lasting(s: State) {
    && Inv(s) && Open(s) && !s.port.stopping && !s.flags.dead
    && match s.reader
       case Service(pc) => pc == Allow || pc == Decide || pc == ExchangeDead ==> s.rv.wanted
       case _ => s.reader == Top || s.reader == Reading || s.reader == Body || s.reader.Receive?
  }

  lemma LastingStays(s: State, step: Step)
    requires Lasting(s) && Enabled(s, step) && HostIsThere(s, step)
    ensures Lasting(Do(s, step))
  {
    hide Owned, Latest, Waits, Phased, DoLoop, DoFinish, DoFeed, DoTake, InTear, InFinish, InTake;
    StepKeeps(s, step);
    if step.Read? { SwitchedOnIsNotAsked(s); } else { hide Inv; OthersSpareReader(s, step); }
  }

  lemma SwitchedOnIsNotAsked(s: State)
    requires Inv(s) && !s.flags.tearingDown && s.reader != Absent
    ensures !s.flags.stop
  {
    hide Sessions, Owned, Latest, Waits, Built;
  }

  /** A session that is wanted, and whose host is there, goes on. */
  lemma {:induction false} SessionLasts(s: State, steps: seq<Step>)
    requires Inv(s) && s.reader == Top && s.port.arbiter && !s.port.stopping && !s.flags.dead
    requires Runs(s, steps) && Along(s, steps, HostIsThere)
    ensures var t := After(s, steps); Lasting(t) && Open(t) && !t.reader.Finish?
  {
    hide Inv, Do, Enabled, HostIsThere;
    if steps == [] {
      TopIsOpen(s);
    } else {
      SessionLasts(s, Init(steps));
      hide Lasting;
      LastingStays(After(s, Init(steps)), Last(steps));
      LastingIsOpen(After(s, steps));
    }
  }

  lemma LastingIsOpen(s: State)
    requires Lasting(s)
    ensures Open(s) && !s.reader.Finish?
  {
    hide Inv;
  }

  lemma TopIsOpen(s: State)
    requires Inv(s) && s.reader == Top && s.port.arbiter
    ensures Open(s)
  {
    hide Owned, Latest, Waits, Phased, InTear, InFinish, InTake, InService;
  }

  /** When a poll branches, the switch is on or there is something built or on its way out. */
  predicate NotLifted(s: State, step: Step) {
    step.Loop? && s.loop == Polling ==> s.lv.polled || s.heap.sNetif != 0 || s.lv.teardown != Idle
  }

  lemma LatchStays(s: State, step: Step)
    requires s.lv.failed && !s.loop.Build? && Enabled(s, step) && NotLifted(s, step)
    ensures var t := Do(s, step); t.lv.failed && !t.loop.Build?
  {
    hide DoReader, DoBuild;
    if step.Read? { InsideTelling(s, step.data, step.yes); }
  }

  /** A build that failed is not tried again until a poll has found the switch off with
      nothing built. */
  lemma {:induction false} FailureIsNotRetried(s: State, steps: seq<Step>)
    requires s.lv.failed && !s.loop.Build? && Runs(s, steps) && Along(s, steps, NotLifted)
    ensures var t := After(s, steps); t.lv.failed && !t.loop.Build?
  {
    hide Do, Enabled, NotLifted;
    if steps != [] {
      FailureIsNotRetried(s, Init(steps));
      LatchStays(After(s, Init(steps)), Last(steps));
    }
  }

  /** Such a poll forgets it, and so the next that finds the switch on can build. */
  lemma OffPollForgets(s: State)
    requires Inv(s) && s.loop == LoopOut && s.lv.teardown == Idle && s.heap.sNetif == 0
    ensures var t := DoLoop(Do(s, Poll(false)), true); Inv(t) && t.loop == LoopOut && !t.lv.failed && t.heap.sNetif == 0
  {
    assert Enabled(s, Poll(false)) && Enabled(Do(s, Poll(false)), Loop(true));
    StepKeeps(s, Poll(false));
    StepKeeps(Do(s, Poll(false)), Loop(true));
    hide Inv, DoReader, DoBuild, DoTear;
  }

  /** Once a pass has looked, nothing of an older report is left. */
  predicate Spent(s: State) {
    s.reader.Finish? || s.reader == Body || s.reader == Feeding || s.reader.Take? || s.reader.Receive? ==> !s.flags.dead
  }

  lemma SpentStays(s: State, step: Step)
    requires Inv(s) && Spent(s) && s.reader != Absent && Enabled(s, step) && !step.DeadPhase?
    ensures Spent(Do(s, step))
  {
    if step.Read? {
      hide Inv, Fed, RunAfter;
    } else {
      hide Inv, Do, Enabled;
      OthersSpareReader(s, step);
    }
  }

  /** A report ends at most the session it is about: without a new one, no session that
      begins later finds any. */
  lemma {:induction false} ReportIsSpent(s: State, steps: seq<Step>)
    requires Inv(s) && s.reader == Top && Runs(s, steps) && WhileThere(s, steps)
    requires Along(s, steps, (u, step) => step != DeadPhase)
    ensures Inv(After(s, steps)) && Spent(After(s, steps))
  {
    hide Inv, Do, Enabled;
    if steps != [] {
      ReportIsSpent(s, Init(steps));
      StepKeeps(After(s, Init(steps)), Last(steps));
      hide Spent;
      SpentStays(After(s, Init(steps)), Last(steps));
    }
  }

  // ---------------------------------------------------------------------
  // A quiet pass
  // ---------------------------------------------------------------------

  /** A pass that read nothing, long after the last byte. */
  ghost predicate Silent(s: State) {
    && Inv(s) && s.rv.rest == [] && s.reader != Absent
    && (s.reader.Service? || s.reader.Finish? || s.reader == Body)
  }

  predicate LongQuiet(s: State, step: Step) { step.Read? && s.reader == Body ==> step.yes }

  predicate Released(s: State) { s.reader == Top && s.rv.run == [] }

  function ToRelease(s: State): (n: nat)
    ensures n >= 1
  {
    match s.reader
    case Finish(pc) => 1 + FinLeft(pc)
    case Service(pc) => 1 + SvcLeft(pc)
    case _ => 1
  }

  lemma SilentNearer(s: State, step: Step)
    requires Silent(s) && Enabled(s, step) && LongQuiet(s, step)
    ensures var t := Do(s, step);
      Released(t) || (Silent(t) && Nearer(Readers(step), ToRelease(s), ToRelease(t)))
  {
    hide Sessions, Owned, Latest, Waits, Phased, DoLoop, DoFeed, DoTake, DoReceive;
    StepKeeps(s, step);
    hide Inv;
    if !step.Read? { OthersSpareReader(s, step); }
  }

  /** What the console's port went quiet on is released, and nothing is held. */
  lemma QuietIsReleased(s: State, steps: seq<Step>)
    requires Inv(s) && s.reader == Service(LoadEnabled) && s.rv.rest == []
    requires Runs(s, steps) && Along(s, steps, LongQuiet) && Own(steps, Readers) >= 18
    ensures Reaches(s, steps, Released)
  {
    assert Silent(s) && ToRelease(s) == 18;
    hide Inv, Do, Enabled, Silent, Released, ToRelease, LongQuiet, Readers;
    assert Nears(Silent, Released, ToRelease, Readers, LongQuiet) by {
      forall u, step | Silent(u) && Enabled(u, step) && LongQuiet(u, step)
        ensures var t := Do(u, step);
          Released(t) || (Silent(t) && Nearer(Readers(step), ToRelease(u), ToRelease(t)))
      {
        SilentNearer(u, step);
      }
    }
    Arrives(s, steps, Silent, Released, ToRelease, Readers, LongQuiet);
  }

  // ---------------------------------------------------------------------
  // Takeovers after the switch-off
  // ---------------------------------------------------------------------

  /** PPP takes the port. */
  predicate TookOver(s: State, step: Step)
    requires Enabled(s, step)
  {
    !s.port.arbiter && Do(s, step).port.arbiter
  }

  /** How often it does, along a run. */
  ghost function Takeovers(s: State, steps: seq<Step>): nat
    requires Runs(s, steps)
  {
    if steps == [] then 0
    else Takeovers(s, Init(steps)) + if TookOver(After(s, Init(steps)), Last(steps)) then 1 else 0
  }

  predicate Tearing(s: State, step: Step) { s.flags.tearingDown }

  /** The history counts every takeover since the switch-off. */
  lemma TakeoverIsCounted(s: State, step: Step)
    requires Inv(s) && Enabled(s, step) && s.flags.tearingDown
    ensures Do(s, step).past.takeovers == s.past.takeovers + if TookOver(s, step) then 1 else 0
  {
    hide Owned, Latest, Waits, DoReader, DoLoop;
    if step.Read? {
      hide Inv, Enabled;
      ReaderCounts(s, step.data, step.yes);
    } else if s.reader != Absent {
      hide Do;
      OthersSpareReader(s, step);
      OthersSparePast(s, step);
    } else if step.Loop? {
      hide Inv;
      TearingCounts(s, step.yes);
    }
  }

  lemma ReaderCounts(s: State, data: seq<byte>, yes: bool)
    requires Sessions(s) && s.flags.tearingDown
    ensures var t := DoReader(s, data, yes);
      t.past.takeovers == s.past.takeovers + if !s.port.arbiter && t.port.arbiter then 1 else 0
  {
    hide DoService, DoFinish, DoReceive, DoTake, DoFeed, InService, InFinish, InTake, InTear;
    match s.reader
    case Service(pc) => ServiceCallsAll(s, pc, yes);
    case Finish(pc) => FinishCallsAll(s, pc);
    case Receive(pc) => ReceiveCallsAll(s, pc);
    case Take(pc) => TakeCallsAll(s, pc);
    case Feeding => FeedCounts(s);
    case _ =>
  }

  lemma TearingCounts(s: State, yes: bool)
    requires Phased(s) && s.flags.tearingDown
    ensures var t := DoLoop(s, yes); t.past == s.past && (t.port.arbiter ==> s.port.arbiter)
  {
    hide Built, DoBuild;
  }

  lemma OthersSparePast(s: State, step: Step)
    requires Inv(s) && s.reader != Absent && s.flags.tearingDown && Enabled(s, step) && !step.Read?
    ensures Do(s, step).past == s.past
  {
    hide Sessions, Owned, Latest, Waits;
    ReaderHasNetif(s);
    TearsOnlyAlone(s);
  }

  lemma CountIsSmall(s: State)
    requires Inv(s) && s.flags.tearingDown
    ensures s.past.takeovers <= 1
  {
    hide Sessions, Owned, Waits, Phased;
  }

  /** From the switch-off on, PPP takes the port once more at most. */
  lemma {:induction false} OneTakeoverAtMost(s: State, steps: seq<Step>)
    requires Inv(s) && Runs(s, steps) && Along(s, steps, Tearing) && After(s, steps).flags.tearingDown
    ensures Inv(After(s, steps)) && After(s, steps).past.takeovers == s.past.takeovers + Takeovers(s, steps)
    ensures Takeovers(s, steps) <= 1
  {
    hide Inv, Do, Enabled;
    if steps != [] {
      var u := After(s, Init(steps));
      assert Tearing(u, Last(steps));
      OneTakeoverAtMost(s, Init(steps));
      TakeoverIsCounted(u, Last(steps));
      StepKeeps(u, Last(steps));
    }
    CountIsSmall(After(s, steps));
  }

  /** Between passes, or in one that began after the switch-off. */
  predicate LatePass(s: State) { s.reader == Top || Leaving(s.reader) || s.reader == Absent || s.past.late }

  lemma LateTakesNothing(s: State, step: Step)
    requires Inv(s) && Enabled(s, step) && s.flags.tearingDown && LatePass(s)
    ensures !TookOver(s, step) && LatePass(Do(s, step))
  {
    TakeoverIsCounted(s, step);
    if step.Read? {
      LastTakeover(s, step.data, step.yes);
      LateStays(s, step.data, step.yes);
    } else if s.reader != Absent {
      OthersSpareReader(s, step);
      OthersSparePast(s, step);
    } else {
      AbsentStays(s, step);
    }
  }

  lemma LateStays(s: State, data: seq<byte>, yes: bool)
    requires LatePass(s) && s.flags.tearingDown && s.reader != Absent
    ensures LatePass(DoReader(s, data, yes))
    ensures s.reader == Top || Leaving(s.reader) ==> DoReader(s, data, yes).past.takeovers == s.past.takeovers
  {
    hide Fed, RunAfter;
  }

  lemma AbsentStays(s: State, step: Step)
    requires Inv(s) && s.reader == Absent && s.flags.tearingDown && Enabled(s, step) && !step.Read?
    ensures Do(s, step).reader == Absent && Do(s, step).past.takeovers == s.past.takeovers
  {
    hide Sessions, Owned, Latest, Waits;
  }

  /** And never in a pass that begins after it. */
  lemma {:induction false} LaterPassesTakeNothing(s: State, steps: seq<Step>)
    requires Inv(s) && LatePass(s) && Runs(s, steps) && Along(s, steps, Tearing)
    ensures Inv(After(s, steps)) && LatePass(After(s, steps)) && Takeovers(s, steps) == 0
  {
    hide Inv, Do, Enabled;
    if steps != [] {
      var u := After(s, Init(steps));
      assert Tearing(u, Last(steps));
      LaterPassesTakeNothing(s, Init(steps));
      hide LatePass, TookOver;
      LateTakesNothing(u, Last(steps));
      StepKeeps(u, Last(steps));
    }
  }

  /** Past the point where a build, or a teardown, forgets the last interface's answers. */
  predicate Forgotten(s: State) {
    || s.loop == Tear(TearConsole) || s.loop == Tear(TearFlag)
    || (s.loop.Build? && s.loop.build != BuildNew && s.loop.build != BuildStarted && s.loop.build != BuildDead)
    ==> !s.flags.dead
  }

  lemma ForgottenStays(s: State, step: Step)
    requires Inv(s) && Forgotten(s) && Enabled(s, step) && !step.DeadPhase?
    ensures Forgotten(Do(s, step))
  {
    hide Inv, DoReader, DoLoop;
    if step.Read? { ReaderAddsNoReport(s, step.data, step.yes); }
    else if step.Loop? { hide Forgotten; LoopForgets(s, step.yes); }
  }

  lemma LoopForgets(s: State, yes: bool)
    requires Forgotten(s)
    ensures Forgotten(DoLoop(s, yes))
  {
  }

  lemma ReaderAddsNoReport(s: State, data: seq<byte>, yes: bool)
    ensures var t := DoReader(s, data, yes); t.loop == s.loop && (t.flags.dead ==> s.flags.dead)
  {
    hide DoService, DoFinish, DoTake, DoReceive, DoFeed;
    match s.reader
    case Service(pc) => ServiceAddsNoReport(s, pc, yes);
    case Finish(pc) => FinishAside(s, pc); FinishAddsNoReport(s, pc);
    case Take(pc) => TakeAside(s, pc); TakeAddsNoReport(s, pc);
    case Receive(pc) => ReceiveAddsNoReport(s, pc);
    case Feeding => FeedAddsNoReport(s);
    case _ =>
  }

  lemma ServiceAddsNoReport(s: State, pc: SvcPc, yes: bool)
    ensures var t := DoService(s, pc, yes); t.loop == s.loop && (t.flags.dead ==> s.flags.dead)
  {
  }

  lemma FinishAddsNoReport(s: State, pc: FinPc)
    ensures DoFinish(s, pc).flags == s.flags
  {
  }

  lemma TakeAddsNoReport(s: State, pc: TakePc)
    ensures DoTake(s, pc).flags == s.flags
  {
  }

  lemma ReceiveAddsNoReport(s: State, pc: RxPc)
    ensures var t := DoReceive(s, pc); t.loop == s.loop && t.flags == s.flags
  {
  }

  lemma FeedAddsNoReport(s: State)
    ensures var t := DoFeed(s); t.loop == s.loop && t.flags == s.flags
  {
    hide Fed, RunAfter;
  }

  /** A new interface begins without the last one's reports, and none is kept of one that
      is gone. */
  lemma {:induction false} BuildForgets(s: State, steps: seq<Step>)
    requires Inv(s) && s.loop == LoopOut && Runs(s, steps) && Along(s, steps, (u, step) => step != DeadPhase)
    ensures Inv(After(s, steps)) && Forgotten(After(s, steps))
  {
    hide Inv, Do, Enabled;
    if steps != [] {
      BuildForgets(s, Init(steps));
      StepKeeps(After(s, Init(steps)), Last(steps));
      hide Forgotten;
      ForgottenStays(After(s, Init(steps)), Last(steps));
    }
  }
}
