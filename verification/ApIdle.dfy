/** The idle timer of the access point, src/net/ApIdlePolicy.h: a verdict that
    latches, on a clock of 32 bits that wraps. */
module ApIdle {
  import opened Bytes

  /** What the policy is told, with the instant counted without end. */
  datatype Event =
    | Ask(at: nat, enabled: bool, apUp: bool, stations: nat, window: nat)
    | Wake(at: nat)

  // ---------------------------------------------------------------------
  // The rule, in real time
  // ---------------------------------------------------------------------

  /** An ask that lets the idle time run: on, on the air, and empty. */
  predicate Empty(e: Event) { e.Ask? && e.enabled && e.apUp && e.stations == 0 }

  /** What ends a verdict: a wake, the switch going off, somebody arriving. */
  predicate Lifts(e: Event) { e.Wake? || !e.enabled || (e.apUp && e.stations > 0) }

  /** Whether event `k` starts the idle time anew: a wake, an ask that is on but not
      empty, or the first ask that is on. */
  predicate Arms(h: seq<Event>, k: nat)
    requires k < |h|
  {
    || h[k].Wake?
    || (h[k].enabled && (!Empty(h[k]) || k == 0 || (h[k - 1].Ask? && !h[k - 1].enabled)))
  }

  /** A verdict earned at `j`: every ask since the start at `i` was empty, and the
      window had gone by. */
  ghost predicate Earned(h: seq<Event>, i: nat, j: nat)
    requires i < j < |h|
  {
    && Arms(h, i)
    && (forall k :: i < k <= j ==> Empty(h[k]))
    && h[j].at >= h[i].at + h[j].window
  }

  /** Suppressed after a history: a verdict was earned, and nothing has lifted it. */
  ghost predicate Suppressed(h: seq<Event>) {
    exists i: nat, j: nat :: i < j < |h| && Earned(h, i, j) && forall k :: j < k < |h| ==> !Lifts(h[k])
  }

  /** The last event that started the idle time, unless the switch is off. */
  function Armed(h: seq<Event>): (a: Option<nat>)
    ensures a.Some? ==> a.value < |h|
  {
    if h == [] then None
    else
      var e, k := Last(h), |h| - 1;
      if e.Ask? && !e.enabled then None
      else if Empty(e) && Armed(Init(h)).Some? then Armed(Init(h))
      else Some(k)
  }

  lemma {:induction false} ArmedMeans(h: seq<Event>)
    ensures var a := Armed(h);
      && (a.None? <==> h == [] || (Last(h).Ask? && !Last(h).enabled))
      && (a.Some? ==> a.value < |h| && Arms(h, a.value) && forall k :: a.value < k < |h| ==> Empty(h[k]))
  {
    if h != [] { ArmedMeans(Init(h)); }
  }

  /** Any start with only empty asks after it is the last one. */
  lemma {:induction false} ArmedIsIt(h: seq<Event>, i: nat)
    requires i < |h| && Arms(h, i) && forall k :: i < k < |h| ==> Empty(h[k])
    ensures Armed(h) == Some(i)
  {
    ArmedMeans(Init(h));
    if i < |h| - 1 {
      assert Arms(Init(h), i);
      ArmedIsIt(Init(h), i);
    }
  }

  lemma LiftEnds(h: seq<Event>, e: Event)
    requires Lifts(e)
    ensures !Suppressed(h + [e])
  {
    assert Lifts((h + [e])[|h|]) && !Empty((h + [e])[|h|]);
  }

  lemma Stays(h: seq<Event>, e: Event)
    requires !Lifts(e) && Suppressed(h)
    ensures Suppressed(h + [e])
  {
    var g := h + [e];
    var i: nat, j: nat :| i < j < |h| && Earned(h, i, j) && forall k :: j < k < |h| ==> !Lifts(h[k]);
    assert Arms(g, i) && Earned(g, i, j);
  }

  lemma Newly(h: seq<Event>, e: Event)
    requires !Suppressed(h) && !Lifts(e)
    ensures Suppressed(h + [e]) <==> Empty(e) && Armed(h).Some? && e.at >= h[Armed(h).value].at + e.window
  {
    var g := h + [e];
    assert forall k :: 0 <= k < |h| ==> g[k] == h[k];
    ArmedMeans(h);
    if Empty(e) && Armed(h).Some? && e.at >= h[Armed(h).value].at + e.window {
      assert Arms(g, Armed(h).value) && Earned(g, Armed(h).value, |h|);
    }
    if Suppressed(g) {
      var i: nat, j: nat :| i < j < |g| && Earned(g, i, j) && forall k :: j < k < |g| ==> !Lifts(g[k]);
      EarnedLast(h, e, i, j);
      assert forall k :: i < k < |h| ==> Empty(g[k]) && Empty(h[k]);
      assert Arms(h, i) && Empty(g[|h|]);
      ArmedIsIt(h, i);
    }
  }

  lemma EarnedLast(h: seq<Event>, e: Event, i: nat, j: nat)
    requires !Suppressed(h) && i < j <= |h| && Earned(h + [e], i, j)
    requires forall k :: j < k <= |h| ==> !Lifts((h + [e])[k])
    ensures j == |h|
  {
    var g := h + [e];
    assert forall k :: 0 <= k < |h| ==> g[k] == h[k];
    if j < |h| {
      assert Arms(h, i);
      forall k | i < k <= j
        ensures Empty(h[k])
      {
        assert Empty(g[k]);
      }
      forall k | j < k < |h|
        ensures !Lifts(h[k])
      {
        assert !Lifts(g[k]);
      }
      assert Earned(h, i, j);
    }
  }

  /** The rule as it goes, event by event. */
  lemma SuppressedNext(h: seq<Event>, e: Event)
    ensures Lifts(e) ==> !Suppressed(h + [e])
    ensures !Lifts(e) && Suppressed(h) ==> Suppressed(h + [e])
    ensures !Lifts(e) && !Suppressed(h) ==>
      (Suppressed(h + [e]) <==> Empty(e) && Armed(h).Some? && e.at >= h[Armed(h).value].at + e.window)
  {
    hide Suppressed;
    if Lifts(e) { LiftEnds(h, e); } else if Suppressed(h) { Stays(h, e); } else { Newly(h, e); }
  }

  lemma ArmedNext(h: seq<Event>, e: Event)
    ensures Armed(h + [e])
         == if e.Ask? && !e.enabled then None else if Empty(e) && Armed(h).Some? then Armed(h) else Some(|h|)
  {
    assert Init(h + [e]) == h && Last(h + [e]) == e;
  }

  lemma SuppressedIsArmed(h: seq<Event>)
    ensures Suppressed(h) ==> Armed(h).Some?
  {
    ArmedMeans(h);
    if h != [] && Lifts(Last(h)) {
      assert Init(h) + [Last(h)] == h;
      LiftEnds(Init(h), Last(h));
    }
  }

  // ---------------------------------------------------------------------
  // The policy, on the wrapping clock
  // ---------------------------------------------------------------------

  /** The policy's three fields. */
  datatype Fields = Fields(emptySinceMs: nat, suppressed: bool, asked: bool)

  /** What `suppressed` and `wake` make of them; the answer is the new verdict. */
  function Next(f: Fields, e: Event): Fields {
    var now := Wrap(e.at);
    if e.Wake? then Fields(now, false, true)
    else if !e.enabled then Fields(f.emptySinceMs, false, false)
    else if f.suppressed && !(e.apUp && e.stations > 0) then f
    else if !f.asked || !Empty(e) then Fields(now, false, true)
    else f.(suppressed := Gap(now, f.emptySinceMs) >= e.window)
  }

  function After(h: seq<Event>): Fields {
    if h == [] then Fields(0, false, false) else Next(After(Init(h)), Last(h))
  }

  lemma AfterSnoc(h: seq<Event>, e: Event)
    ensures After(h + [e]) == Next(After(h), e)
  {
    assert Init(h + [e]) == h;
  }

  class Policy {
    var emptySinceMs: nat
    var suppressed: bool
    var asked: bool

    /** Everything the policy has been told. */
    ghost var h: seq<Event>

    ghost predicate Valid()
      reads this
    {
      Fields(emptySinceMs, suppressed, asked) == After(h)
    }

    constructor ()
      ensures Valid() && h == []
    {
      emptySinceMs, suppressed, asked, h := 0, false, false, [];
    }

    method Ask(nowMs: nat, enabled: bool, apUp: bool, stations: nat, idleMs: nat, ghost at: nat)
      returns (hold: bool)
      requires Valid() && nowMs == Wrap(at)
      modifies this
      ensures Valid() && h == old(h) + [Event.Ask(at, enabled, apUp, stations, idleMs)]
      ensures hold == After(h).suppressed
      ensures Ordered(h) && MissedNone(h) ==> hold == Suppressed(h)
    {
      ghost var e := Event.Ask(at, enabled, apUp, stations, idleMs);
      hide After, Wrap, Gap, Suppressed, MissedNone, Ordered;
      AfterSnoc(h, e);
      if Ordered(h + [e]) && MissedNone(h + [e]) { AnswerIsRight(h + [e]); }
      h := h + [e];
      if !enabled {
        suppressed := false;
        asked := false;
        return false;
      }
      if suppressed && apUp && stations > 0 { suppressed := false; }
      if suppressed { return true; }
      if !asked || !apUp || stations > 0 {
        asked := true;
        emptySinceMs := nowMs;
        return false;
      }
      if Gap(nowMs, emptySinceMs) >= idleMs { suppressed := true; }
      return suppressed;
    }

    method Wake(nowMs: nat, ghost at: nat)
      requires Valid() && nowMs == Wrap(at)
      modifies this
      ensures Valid() && h == old(h) + [Event.Wake(at)] && !suppressed
    {
      AfterSnoc(h, Event.Wake(at));
      h := h + [Event.Wake(at)];
      suppressed := false;
      asked := true;
      emptySinceMs := nowMs;
    }
  }

  // ---------------------------------------------------------------------
  // Exactly when the answers are the rule's
  // ---------------------------------------------------------------------

  predicate Ordered(h: seq<Event>) { forall j, k :: 0 <= j < k < |h| ==> h[j].at <= h[k].at }

  /** An ask the wrapped clock misses: the window has gone by and no verdict stands,
      but since the idle time started the clock has gone round to short of it. */
  ghost predicate Missed(h: seq<Event>, e: Event) {
    && Empty(e) && Armed(h).Some? && !Suppressed(h)
    && h[Armed(h).value].at <= e.at
    && var d := e.at - h[Armed(h).value].at; Wrap(d) < e.window <= d
  }

  /** The fields are what the rule says of the history. */
  ghost predicate Tracks(f: Fields, h: seq<Event>) {
    && f.suppressed == Suppressed(h) && f.asked == Armed(h).Some?
    && (f.asked && !f.suppressed ==> f.emptySinceMs == Wrap(h[Armed(h).value].at))
  }

  lemma GapAnswers(d: nat, window: nat)
    ensures (Wrap(d) >= window <==> d >= window) <==> !(Wrap(d) < window <= d)
  {
  }

  /** From fields that agree with the rule, the next answer agrees exactly when it is
      not missed, and then so do the fields. */
  lemma NextIsRightIff(f: Fields, h: seq<Event>, e: Event)
    requires Tracks(f, h) && (forall k :: 0 <= k < |h| ==> h[k].at <= e.at)
    ensures Next(f, e).suppressed == Suppressed(h + [e]) <==> !Missed(h, e)
    ensures !Missed(h, e) ==> Tracks(Next(f, e), h + [e])
  {
    hide Suppressed, Armed, Wrap, Gap;
    SuppressedNext(h, e);
    ArmedNext(h, e);
    SuppressedIsArmed(h);
    if Empty(e) && Armed(h).Some? && !Suppressed(h) {
      var since := h[Armed(h).value].at;
      WrappedGap(e.at, since);
      GapAnswers(e.at - since, e.window);
    }
  }

  /** The policy's answers to a history, one an event (to a wake, nothing held). */
  function Answers(h: seq<Event>): seq<bool> {
    if h == [] then [] else Answers(Init(h)) + [After(h).suppressed]
  }

  /** The rule's. */
  ghost function Verdicts(h: seq<Event>): seq<bool> {
    if h == [] then [] else Verdicts(Init(h)) + [Suppressed(h)]
  }

  ghost predicate MissedNone(h: seq<Event>) {
    h == [] || (MissedNone(Init(h)) && !Missed(Init(h), Last(h)))
  }

  /** Spelt out: no ask anywhere in the history is missed. */
  lemma {:induction false} MissedNoneAt(h: seq<Event>)
    ensures MissedNone(h) <==> forall k :: 0 <= k < |h| ==> !Missed(h[..k], h[k])
  {
    hide Missed;
    if h != [] {
      var i := Init(h);
      MissedNoneAt(i);
      forall k | 0 <= k < |h|
        ensures Missed(h[..k], h[k]) <==> if k == |h| - 1 then Missed(i, Last(h)) else Missed(i[..k], i[k])
      {
        if k < |h| - 1 { assert i[..k] == h[..k]; } else { assert h[..k] == i; }
      }
    }
  }

  lemma SameLength(h: seq<Event>)
    ensures |Answers(h)| == |h| == |Verdicts(h)|
  {
  }

  /** Every answer is the rule's exactly when no ask is missed. */
  lemma {:induction false} RightIff(h: seq<Event>)
    requires Ordered(h)
    ensures Answers(h) == Verdicts(h) <==> MissedNone(h)
    ensures MissedNone(h) ==> Tracks(After(h), h)
  {
    hide Missed, Tracks, Next, Suppressed;
    if h == [] {
      NothingAsked();
    } else {
      RightIff(Init(h));
      SameLength(Init(h));
      assert Init(h) + [Last(h)] == h;
      var a, v := Answers(Init(h)), Verdicts(Init(h));
      assert Answers(h)[..|a|] == a && Verdicts(h)[..|v|] == v;
      assert Answers(h)[|a|] == After(h).suppressed && Verdicts(h)[|v|] == Suppressed(h);
      if MissedNone(Init(h)) { NextIsRightIff(After(Init(h)), Init(h), Last(h)); }
    }
  }

  lemma AnswerIsRight(h: seq<Event>)
    requires Ordered(h) && MissedNone(h)
    ensures After(h).suppressed == Suppressed(h)
  {
    hide Suppressed, MissedNone, Ordered;
    RightIff(h);
  }

  lemma NothingAsked()
    ensures MissedNone([]) && Tracks(After([]), []) && Ordered([])
  {
  }

  /** From one event to the next, the gap and the window last asked about stay under a
      turn of the clock. */
  ghost predicate Steady(h: seq<Event>) {
    forall k :: 0 < k < |h| ==>
      && h[k - 1].at <= h[k].at
      && h[k].at - h[k - 1].at + (if h[k - 1].Ask? then h[k - 1].window else 0) < TWO_TO_32
  }

  /** While no verdict stands, the idle time running is short of the window last
      asked about. */
  ghost predicate Short(h: seq<Event>) {
    Armed(h).Some? && !Suppressed(h) ==>
      && h[Armed(h).value].at <= Last(h).at
      && (Armed(h).value < |h| - 1 ==> Last(h).Ask? && Last(h).at - h[Armed(h).value].at < Last(h).window)
  }

  lemma SteadyInit(h: seq<Event>, e: Event)
    requires Steady(h + [e])
    ensures Steady(h)
    ensures h != [] ==> Last(h).at <= e.at
                        && e.at - Last(h).at + (if Last(h).Ask? then Last(h).window else 0) < TWO_TO_32
  {
    var g := h + [e];
    assert forall k :: 0 <= k < |h| ==> g[k] == h[k];
    if h != [] { assert g[|h| - 1] == Last(h) && g[|h|] == e; }
  }

  lemma EmptyLiftsNothing(e: Event)
    requires Empty(e)
    ensures !Lifts(e)
  {
  }

  lemma ShortNext(h: seq<Event>, e: Event)
    requires Steady(h + [e]) && Short(h)
    ensures Short(h + [e])
    ensures !Suppressed(h) && Empty(e) && Armed(h).Some? ==>
      var i := Armed(h).value; h[i].at <= e.at < h[i].at + TWO_TO_32
  {
    hide Suppressed, Armed, Steady, Arms;
    SteadyInit(h, e);
    ArmedNext(h, e);
    SuppressedNext(h, e);
    assert Last(h + [e]) == e;
    if Suppressed(h) && Empty(e) { EmptyLiftsNothing(e); }
  }

  /** Asked often enough, the policy misses nothing. */
  lemma {:induction false} SteadyMissesNone(h: seq<Event>)
    requires Steady(h)
    ensures MissedNone(h) && Short(h) && Ordered(h)
  {
    hide Short, Steady, Suppressed, Armed;
    if h == [] {
      NothingAsked();
      ShortNothing();
    } else {
      assert Init(h) + [Last(h)] == h;
      SteadyInit(Init(h), Last(h));
      SteadyMissesNone(Init(h));
      ShortNext(Init(h), Last(h));
    }
  }

  lemma ShortNothing()
    ensures Short([])
  {
  }

  /** A whole run: on any ordered history the answers are the rule's exactly when none
      is missed, and none is on a steady one. */
  method Run(events: seq<Event>) returns (answers: seq<bool>)
    ensures answers == Answers(events)
    ensures Ordered(events) ==> (answers == Verdicts(events) <==> MissedNone(events))
    ensures Steady(events) ==> answers == Verdicts(events)
  {
    hide Suppressed, Wrap, Steady, After, Missed;
    var p := new Policy();
    answers := [];
    for i := 0 to |events|
      invariant p.Valid() && p.h == events[..i] && answers == Answers(events[..i])
    {
      assert events[..i + 1] == events[..i] + [events[i]];
      assert Init(events[..i + 1]) == events[..i];
      var hold := false;
      match events[i] {
        case Ask(at, enabled, apUp, stations, window) =>
          hold := p.Ask(Wrap(at), enabled, apUp, stations, window, at);
        case Wake(at) =>
          p.Wake(Wrap(at), at);
      }
      answers := answers + [hold];
    }
    assert events[..|events|] == events;
    if Ordered(events) { RightIff(events); }
    if Steady(events) {
      SteadyMissesNone(events);
      RightIff(events);
    }
  }

  /** A miss: an access point found empty a whole turn of the clock later is kept up,
      whatever the window. */
  lemma AskedTooSeldom(window: nat)
    requires 0 < window < TWO_TO_32
    ensures var h := [Event.Ask(0, true, true, 0, window), Event.Ask(TWO_TO_32, true, true, 0, window)];
      !After(h).suppressed && Suppressed(h) && Missed([h[0]], h[1])
  {
    var a, b := Event.Ask(0, true, true, 0, window), Event.Ask(TWO_TO_32, true, true, 0, window);
    assert [a] == [] + [a] && [a, b] == [a] + [b];
    AfterSnoc([], a);
    AfterSnoc([a], b);
    ArmedNext([], a);
    assert Arms([a, b], 0) && Earned([a, b], 0, 1);
  }
}
