/** The step list of tools/hil_frames.py: both arms of one channel, interleaved in
    blocks, the order of the arms changing from block to block. */
module HilSchedule {
  import opened Bytes

  datatype Arm = Off | On

  datatype Step = Step(arm: Arm, seqNo: nat)

  datatype Schedule = Steps(steps: seq<Step>) | ValueError

  // ---------------------------------------------------------------------
  // What a step list says
  // ---------------------------------------------------------------------

  /** One arm's sequence numbers, in the order they come. */
  function Of(steps: seq<Step>, arm: Arm): seq<nat> {
    if steps == [] then []
    else Of(Init(steps), arm) + if Last(steps).arm == arm then [Last(steps).seqNo] else []
  }

  function UpTo(n: nat): seq<nat> { if n == 0 then [] else UpTo(n - 1) + [n - 1] }

  /** How far the off arm is ahead. */
  function Lead(steps: seq<Step>): int { |Of(steps, Off)| - |Of(steps, On)| }

  /** At no point is either arm more than a block ahead. */
  predicate Even(steps: seq<Step>, block: nat) {
    steps == [] || (Even(Init(steps), block) && 0 - block <= Lead(steps) <= block)
  }

  /** Every prefix, spelt out. */
  lemma {:induction false} EvenAtEveryPrefix(steps: seq<Step>, block: nat, k: nat)
    requires Even(steps, block) && k <= |steps|
    ensures 0 - block <= Lead(steps[..k]) <= block
  {
    if k == |steps| {
      assert steps[..k] == steps;
    } else {
      EvenAtEveryPrefix(Init(steps), block, k);
      assert Init(steps)[..k] == steps[..k];
    }
  }

  lemma OfSnoc(steps: seq<Step>, step: Step, arm: Arm)
    ensures Of(steps + [step], arm) == Of(steps, arm) + if step.arm == arm then [step.seqNo] else []
  {
    assert Init(steps + [step]) == steps;
  }

  lemma EvenSnoc(steps: seq<Step>, step: Step, block: nat)
    requires Even(steps, block) && 0 - block <= Lead(steps + [step]) <= block
    ensures Even(steps + [step], block)
  {
    assert Init(steps + [step]) == steps;
  }

  lemma {:induction false} UpToAt(n: nat, k: nat)
    requires k < n
    ensures |UpTo(n)| == n && UpTo(n)[k] == k
  {
    if n > 1 { UpToAt(n - 1, if k < n - 1 then k else 0); }
  }

  lemma UpToNext(n: nat)
    ensures UpTo(n + 1) == UpTo(n) + [n]
  {
  }

  lemma UpToLength(n: nat)
    ensures |UpTo(n)| == n
  {
    if n > 0 { UpToAt(n, 0); }
  }

  /** The step list: each arm counts up from nothing to the number of frames. */
  ghost predicate Complete(steps: seq<Step>, frames: int) {
    forall arm :: Of(steps, arm) == UpTo(if frames > 0 then frames else 0)
  }

  /** What a step list that is complete holds: every pair, and each only once. */
  lemma CompleteHolds(steps: seq<Step>, frames: nat, arm: Arm, n: nat)
    requires Complete(steps, frames)
    ensures Step(arm, n) in steps <==> n < frames
    ensures forall i, j :: 0 <= i < j < |steps| ==> steps[i] != steps[j]
  {
    OfHolds(steps, arm, n);
    InUpTo(frames, n);
    forall i, j | 0 <= i < j < |steps|
      ensures steps[i] != steps[j]
    {
      OnlyOnce(steps, frames, i, j);
    }
  }

  lemma {:induction false} OfHolds(steps: seq<Step>, arm: Arm, n: nat)
    ensures Step(arm, n) in steps <==> n in Of(steps, arm)
  {
    if steps != [] {
      OfHolds(Init(steps), arm, n);
      assert steps == Init(steps) + [Last(steps)];
    }
  }

  lemma {:induction false} InUpTo(frames: nat, n: nat)
    ensures n in UpTo(frames) <==> n < frames
  {
    if frames > 0 { InUpTo(frames - 1, n); }
  }

  /** Where in its arm's list a step falls. */
  lemma {:induction false} PlaceInArm(steps: seq<Step>, i: nat) returns (at: nat)
    requires i < |steps|
    ensures at == |Of(steps[..i], steps[i].arm)| < |Of(steps, steps[i].arm)|
    ensures Of(steps, steps[i].arm)[at] == steps[i].seqNo
  {
    if i == |steps| - 1 {
      at := |Of(Init(steps), steps[i].arm)|;
      assert steps[..i] == Init(steps);
    } else {
      at := PlaceInArm(Init(steps), i);
      assert Init(steps)[..i] == steps[..i];
    }
  }

  lemma {:induction false} OfGrows(steps: seq<Step>, i: nat, j: nat, arm: Arm)
    requires i < j <= |steps| && steps[i].arm == arm
    ensures |Of(steps[..i], arm)| < |Of(steps[..j], arm)|
    decreases j
  {
    assert Init(steps[..j]) == steps[..j - 1];
    if i < j - 1 { OfGrows(steps, i, j - 1, arm); }
  }

  lemma OnlyOnce(steps: seq<Step>, frames: nat, i: nat, j: nat)
    requires Complete(steps, frames) && i < j < |steps|
    ensures steps[i] != steps[j]
  {
    if steps[i].arm == steps[j].arm {
      var a := PlaceInArm(steps, i);
      var b := PlaceInArm(steps, j);
      OfGrows(steps, i, j, steps[i].arm);
      UpToLength(frames);
      UpToAt(frames, a);
      UpToAt(frames, b);
    }
  }

  /** The step at place `i`, told at once: block `i / 2b` of each arm, the off arm
      first in every other block, and a last block that may be short. */
  function StepAt(i: nat, frames: nat, block: nat): Step
    requires block > 0
  {
    var p, q := Quot(i, 2 * block), Rem(i, 2 * block);
    StepIn(p, q, Times(p, block), Width(Times(p, block), frames, block))
  }

  function StepIn(p: nat, q: nat, from: nat, width: int): Step {
    Step(if (p % 2 == 0) == (q < width) then Off else On, from + if 0 <= width <= q then q - width else q)
  }

  /** How many of an arm the block that starts at `from` holds. */
  function Width(from: nat, frames: int, block: nat): int { if frames - from < block then frames - from else block }

  ghost predicate InPlace(steps: seq<Step>, frames: nat, block: nat)
    requires block > 0
  {
    |steps| == 2 * frames && forall i :: 0 <= i < |steps| ==> steps[i] == StepAt(i, frames, block)
  }

  // Blocks of a size that is not known.

  lemma TimesTwice(p: nat, d: nat)
    ensures Times(p, 2 * d) == 2 * Times(p, d)
  {
  }

  lemma TimesNext(p: nat, d: nat)
    ensures Times(p + 1, d) == Times(p, d) + d && Times(0, d) == 0
  {
  }

  lemma StepInBlock(p: nat, q: nat, frames: nat, block: nat)
    requires q < 2 * block
    ensures StepAt(2 * Times(p, block) + q, frames, block)
         == StepIn(p, q, Times(p, block), Width(Times(p, block), frames, block))
  {
    hide Width, StepIn, Times, Quot, Rem;
    TimesTwice(p, block);
    Divides(2 * block, p, q);
  }

  /** The off arm begins; a block is one arm and then the other; and a block begins
      with the arm the one before it ended with. */
  lemma ArmsAlternate(steps: seq<Step>, frames: nat, block: nat, p: nat, q: nat)
    requires block > 0 && InPlace(steps, frames, block)
    requires Times(p, block) < frames && q < 2 * Width(Times(p, block), frames, block)
    ensures var at := 2 * Times(p, block);
      && at + q < |steps|
      && steps[0].arm == Off
      && (steps[at + q].arm == steps[at].arm <==> q < Width(Times(p, block), frames, block))
      && (p > 0 ==> at > 0 && steps[at].arm == steps[at - 1].arm)
  {
    hide Times, StepAt;
    StepInBlock(0, 0, frames, block);
    TimesNext(0, block);
    StepInBlock(p, 0, frames, block);
    StepInBlock(p, q, frames, block);
    if p > 0 {
      TimesNext(p - 1, block);
      StepInBlock(p - 1, 2 * block - 1, frames, block);
    }
  }

  // ---------------------------------------------------------------------
  // The list
  // ---------------------------------------------------------------------

  function Other(arm: Arm): Arm { if arm.Off? then On else Off }

  function FirstArm(p: nat): Arm { if p % 2 == 0 then Off else On }

  ghost predicate PlacedSoFar(steps: seq<Step>, frames: nat, block: nat)
    requires block > 0
  {
    forall i :: 0 <= i < |steps| ==> steps[i] == StepAt(i, frames, block)
  }

  lemma PlacedSnoc(steps: seq<Step>, step: Step, frames: nat, block: nat)
    requires block > 0 && PlacedSoFar(steps, frames, block) && step == StepAt(|steps|, frames, block)
    ensures PlacedSoFar(steps + [step], frames, block)
  {
    hide StepAt;
  }

  /** The inner loop: a block more of one arm, or what is left of it. */
  method AddBlock(steps: seq<Step>, arm: Arm, from: nat, frames: nat, block: nat, ghost p: nat)
    returns (out: seq<Step>, next: nat)
    requires block > 0 && from <= frames && from == Times(p, block)
    requires Of(steps, arm) == UpTo(from) && Even(steps, block)
    requires Of(steps, Other(arm)) == UpTo(if arm == FirstArm(p) then from else from + Width(from, frames, block))
    requires PlacedSoFar(steps, frames, block)
    requires |steps| == 2 * from + if arm == FirstArm(p) then 0 else Width(from, frames, block)
    ensures next == from + Width(from, frames, block)
    ensures Of(out, arm) == UpTo(next) && Of(out, Other(arm)) == Of(steps, Other(arm)) && Even(out, block)
    ensures PlacedSoFar(out, frames, block) && |out| == |steps| + next - from
  {
    hide StepAt, PlacedSoFar, Times, Even, Of, UpTo;
    out, next := steps, from;
    var count := if frames - from < block then frames - from else block;
    UpToLength(from);
    UpToLength(from + count);
    for k := 0 to count
      invariant next == from + k && |out| == |steps| + k
      invariant Of(out, arm) == UpTo(next) && Of(out, Other(arm)) == Of(steps, Other(arm)) && Even(out, block)
      invariant PlacedSoFar(out, frames, block)
    {
      var step := Step(arm, next);
      OfSnoc(out, step, arm);
      OfSnoc(out, step, Other(arm));
      UpToLength(next);
      UpToLength(next + 1);
      UpToNext(next);
      EvenSnoc(out, step, block);
      StepInBlock(p, |out| - 2 * from, frames, block);
      PlacedSnoc(out, step, frames, block);
      out := out + [step];
      next := next + 1;
    }
  }

  /** Every pair of an arm and a number below `frames`, each arm in order, neither
      ever more than a block ahead, every step in its place; a block of nothing is
      refused. */
  method StepsFor(frames: int, block: int) returns (r: Schedule)
    ensures block < 1 <==> r.ValueError?
    ensures r.Steps? ==> Complete(r.steps, frames) && Even(r.steps, block)
    ensures r.Steps? ==> InPlace(r.steps, if frames > 0 then frames else 0, block)
  {
    hide StepAt, Even, Of, Times, UpTo;
    if block < 1 { return ValueError; }
    var out: seq<Step> := [];
    var next: map<Arm, nat> := map[Off := 0, On := 0];
    var b := 0;
    EmptyList(block);
    TimesNext(0, block);
    while next[Off] < frames || next[On] < frames
      invariant Off in next && On in next && next[Off] == next[On] && b >= 0
      invariant next[Off] == 0 || next[Off] <= frames
      invariant next[Off] < frames ==> next[Off] == Times(b, block)
      invariant Of(out, Off) == UpTo(next[Off]) && Of(out, On) == UpTo(next[On]) && Even(out, block)
      invariant |out| == 2 * next[Off] && PlacedSoFar(out, if frames > 0 then frames else 0, block)
      decreases frames - next[Off]
    {
      var first, second := Off, On;
      if b % 2 != 0 { first, second := On, Off; }
      var made, n := AddBlock(out, first, next[first], frames, block, b);
      next := next[first := n];
      out, n := AddBlock(made, second, next[second], frames, block, b);
      next := next[second := n];
      TimesNext(b, block);
      b := b + 1;
    }
    BothArms(out, next[Off], frames);
    r := Steps(out);
  }

  lemma BothArms(steps: seq<Step>, n: nat, frames: int)
    requires Of(steps, Off) == UpTo(n) && Of(steps, On) == UpTo(n) && n == if frames > 0 then frames else 0
    ensures Complete(steps, frames)
  {
    hide Of, UpTo;
    forall arm: Arm
      ensures Of(steps, arm) == UpTo(n)
    {
      match arm case Off => case On =>
    }
  }

  lemma EmptyList(block: nat)
    ensures Even([], block) && Of([], Off) == [] && Of([], On) == [] && UpTo(0) == []
  {
  }
}
