/** The duty-cycle window of src/radio/Airtime.cpp: one hour of airtime in sixty
    bins of a minute, kept in a circle and cleared as the clock passes over them.
    Airtime is a real number here, so sums are exact. */
module Airtimes {
  import opened Bytes

  const BINS: nat := 60
  const BIN_MS: nat := 60000
  /** The last minute a 32-bit millisecond clock reaches. */
  const MAX_STAMP: nat := 71582

  /** A transmission, by the minute of the clock it was counted in. */
  datatype Entry = Entry(stamp: nat, air: real)

  function Stamp(now: nat): nat { now / BIN_MS }

  /** Minute by minute from 0, the last one of the clock's cut short. */
  lemma StampIs(now: nat)
    ensures Stamp(now) * 60000 <= now < Stamp(now) * 60000 + 60000
    ensures now < 0x1_0000_0000 ==> Stamp(now) <= MAX_STAMP == Stamp(0xFFFF_FFFF)
  {
  }

  // ---------------------------------------------------------------------
  // What the log says
  // ---------------------------------------------------------------------

  /** Everything sent in minute `t`. */
  function SumAt(log: seq<Entry>, t: int): real {
    if log == [] then 0.0 else SumAt(Init(log), t) + if Last(log).stamp == t then Last(log).air else 0.0
  }

  /** Everything sent in the last sixty minutes, the minute `last` included. */
  function Window(log: seq<Entry>, last: int): real {
    if log == [] then 0.0
    else Window(Init(log), last) + if last - BINS < Last(log).stamp <= last then Last(log).air else 0.0
  }

  predicate UpTo(log: seq<Entry>, last: nat) {
    forall i :: 0 <= i < |log| ==> log[i].stamp <= last && log[i].air > 0.0
  }

  /** The allowance in milliseconds of the hour. */
  function Allowance(limitBp: nat): real { limitBp as real / 10000.0 * 3600000.0 }

  /** A basis point is a ten-thousandth, an hour 3600000 milliseconds. */
  lemma AllowanceIs(limitBp: nat)
    ensures 10000.0 * Allowance(limitBp) == limitBp as real * 3600000.0
  {
  }

  /** Whether a log locks the channel at an instant of the clock. */
  predicate LockedAt(log: seq<Entry>, now: nat, limitBp: nat) {
    limitBp > 0 && Window(log, Stamp(now)) >= Allowance(limitBp)
  }

  lemma {:induction false} SumAfter(log: seq<Entry>, last: nat, t: int)
    requires UpTo(log, last) && t > last
    ensures SumAt(log, t) == 0.0
  {
    if log != [] { SumAfter(Init(log), last, t); }
  }

  /** A minute later the oldest minute is out of the window. */
  lemma {:induction false} WindowShifts(log: seq<Entry>, last: nat, m: int)
    requires UpTo(log, last) && m >= last
    ensures Window(log, m + 1) == Window(log, m) - SumAt(log, m - BINS + 1)
  {
    if log != [] { WindowShifts(Init(log), last, m); }
  }

  lemma {:induction false} WindowRunsOut(log: seq<Entry>, last: nat)
    requires UpTo(log, last)
    ensures Window(log, last + BINS) == 0.0
  {
    if log != [] { WindowRunsOut(Init(log), last); }
  }

  lemma UpToSnoc(log: seq<Entry>, last: nat, air: real)
    requires UpTo(log, last) && air > 0.0
    ensures UpTo(log + [Entry(last, air)], last)
  {
  }

  // ---------------------------------------------------------------------
  // What the bins say
  // ---------------------------------------------------------------------

  function Bin(t: nat): nat { t % BINS }

  /** The minute bin `i` stands for when `last` is the current one. */
  function StampOf(i: nat, last: nat): int { last - (last - i) % BINS }

  ghost predicate Binned(bins: seq<real>, log: seq<Entry>, last: nat) {
    |bins| == BINS && forall i :: 0 <= i < BINS ==> bins[i] == SumAt(log, StampOf(i, last))
  }

  lemma StampOfSelf(last: nat)
    ensures Bin(last) < BINS && StampOf(Bin(last), last) == last
  {
  }

  lemma StampOfRange(i: nat, last: nat)
    ensures last - BINS < StampOf(i, last) <= last
  {
  }

  lemma StampOfNext(i: nat, m: nat)
    requires i < BINS
    ensures StampOf(i, m + 1) == if i == Bin(m + 1) then m + 1 else StampOf(i, m)
  {
  }

  /** The bin `k` after the current one, once around, is the oldest but `k - 1`. */
  lemma StampOfAge(m: nat, age: nat)
    requires age < BINS
    ensures StampOf(Bin(m + 1 + age), m) == m - BINS + 1 + age
  {
    StampOfOffset(m, age);
  }

  lemma StampOfOffset(m: nat, age: nat)
    requires age < BINS
    ensures (m - (m + 1 + age) % BINS) % BINS == BINS - 1 - age
  {
    var q := (m + 1 + age) / BINS;
    assert (m + 1 + age) % BINS == m + 1 + age - BINS * q;
    assert m - (m + 1 + age) % BINS == (BINS - 1 - age) + BINS * (q - 1);
  }

  lemma StampOfIsOnto(i: nat, t: int, last: nat)
    requires i < BINS && last - BINS < t <= last && 0 <= t
    ensures StampOf(i, last) == t <==> i == Bin(t)
  {
  }

  /** Clearing the next bin is a minute going by. */
  lemma BinnedNext(bins: seq<real>, log: seq<Entry>, last: nat, m: nat)
    requires Binned(bins, log, m) && UpTo(log, last) && last <= m
    ensures Bin(m + 1) < BINS && Binned(bins[Bin(m + 1) := 0.0], log, m + 1)
  {
    hide SumAt, StampOf, UpTo;
    StampOfSelf(m + 1);
    SumAfter(log, last, m + 1);
    var next := bins[Bin(m + 1) := 0.0];
    forall i | 0 <= i < BINS
      ensures next[i] == SumAt(log, StampOf(i, m + 1))
    {
      StampOfNext(i, m);
    }
  }

  /** An hour or more later nothing is left. */
  lemma BinnedLater(bins: seq<real>, log: seq<Entry>, last: nat, m: nat)
    requires UpTo(log, last) && m >= last + BINS
    requires |bins| == BINS && forall i :: 0 <= i < BINS ==> bins[i] == 0.0
    ensures Binned(bins, log, m)
  {
    hide SumAt, StampOf, UpTo;
    forall i | 0 <= i < BINS
      ensures bins[i] == SumAt(log, StampOf(i, m))
    {
      StampOfRange(i, m);
      SumAfter(log, last, StampOf(i, m));
    }
  }

  lemma BinnedNothing(bins: seq<real>, m: nat)
    requires |bins| == BINS && forall i :: 0 <= i < BINS ==> bins[i] == 0.0
    ensures Binned(bins, [], m)
  {
  }

  lemma BinnedAdd(bins: seq<real>, log: seq<Entry>, last: nat, air: real)
    requires Binned(bins, log, last)
    ensures Bin(last) < BINS
    ensures Binned(bins[Bin(last) := bins[Bin(last)] + air], log + [Entry(last, air)], last)
  {
    hide StampOf, Bin;
    StampOfSelf(last);
    var more := log + [Entry(last, air)];
    assert Init(more) == log && Last(more) == Entry(last, air);
    forall i | 0 <= i < BINS && i != Bin(last)
      ensures StampOf(i, last) != last
    {
      StampOfRange(i, last);
      StampOfIsOnto(i, last, last);
    }
  }

  function Sum(s: seq<real>): real {
    if s == [] then 0.0 else Sum(Init(s)) + Last(s)
  }

  lemma SumSnoc(s: seq<real>, x: real)
    ensures Sum(s + [x]) == Sum(s) + x
  {
    assert Init(s + [x]) == s;
  }

  lemma {:induction false} SumUpdate(s: seq<real>, i: nat, x: real)
    requires i < |s|
    ensures Sum(s[i := x]) == Sum(s) - s[i] + x
  {
    if i == |s| - 1 {
      assert Init(s[i := x]) == Init(s);
    } else {
      assert Init(s[i := x]) == Init(s)[i := x];
      SumUpdate(Init(s), i, x);
    }
  }

  lemma {:induction false} SumZeros(s: seq<real>)
    requires forall i :: 0 <= i < |s| ==> s[i] == 0.0
    ensures Sum(s) == 0.0
  {
    if s != [] { SumZeros(Init(s)); }
  }

  /** The bins of a log, as the log alone gives them. */
  ghost function BinsOf(log: seq<Entry>, last: nat): (bins: seq<real>)
    ensures Binned(bins, log, last)
  {
    seq(BINS, i requires 0 <= i < BINS => SumAt(log, StampOf(i, last)))
  }

  /** All sixty bins together are the window of the log. */
  lemma {:induction false} BinsSumToWindow(bins: seq<real>, log: seq<Entry>, last: nat)
    requires Binned(bins, log, last)
    ensures Sum(bins) == Window(log, last)
    decreases log
  {
    hide StampOf, Bin, BinsOf;
    if log == [] {
      SumZeros(bins);
    } else {
      var e := Last(log);
      var fewer := BinsOf(Init(log), last);
      BinsSumToWindow(fewer, Init(log), last);
      if last - BINS < e.stamp <= last {
        var i := Bin(e.stamp);
        BinInRange(e.stamp);
        SumUpdate(fewer, i, fewer[i] + e.air);
        forall j | 0 <= j < BINS
          ensures bins[j] == fewer[i := fewer[i] + e.air][j]
        {
          StampOfIsOnto(j, e.stamp, last);
        }
        assert bins == fewer[i := fewer[i] + e.air];
      } else {
        forall j | 0 <= j < BINS
          ensures bins[j] == fewer[j]
        {
          StampOfRange(j, last);
        }
        assert bins == fewer;
      }
    }
  }

  lemma BinInRange(t: nat)
    ensures Bin(t) < BINS
  {
  }

  // ---------------------------------------------------------------------
  // The unlock time
  // ---------------------------------------------------------------------

  /** From `now`, the first instant of the minute that comes `age + 1` minutes on. */
  function Until(now: nat, age: nat): nat { BIN_MS - now % BIN_MS + age * BIN_MS }

  lemma UntilIsTheFirst(now: nat, age: nat, t: nat)
    requires now <= t
    ensures t < now + Until(now, age) <==> Stamp(t) <= Stamp(now) + age
  {
    var q := now / BIN_MS;
    assert now + Until(now, age) == (q + 1 + age) * BIN_MS;
    assert t < (q + 1 + age) * BIN_MS <==> t / BIN_MS < q + 1 + age by { Dividing(t, q + 1 + age); }
  }

  lemma Dividing(t: nat, k: nat)
    ensures t < k * BIN_MS <==> t / BIN_MS < k
  {
  }

  /** `r` milliseconds on is exactly when the channel is free again, if nothing
      more is sent. */
  ghost predicate UnlocksAfter(log: seq<Entry>, now: nat, limitBp: nat, r: nat) {
    forall t :: now <= t ==> (LockedAt(log, t, limitBp) <==> t < now + r)
  }

  lemma {:induction false} WindowFalls(log: seq<Entry>, last: nat, m: nat, n: nat)
    requires UpTo(log, last) && last <= m <= n
    ensures Window(log, n) <= Window(log, m)
    decreases n
  {
    if m < n {
      WindowFalls(log, last, m, n - 1);
      WindowShifts(log, last, n - 1);
      SumPositive(log, last, n - BINS);
    }
  }

  lemma {:induction false} SumPositive(log: seq<Entry>, last: nat, t: int)
    requires UpTo(log, last)
    ensures SumAt(log, t) >= 0.0
  {
    if log != [] { SumPositive(Init(log), last, t); }
  }

  lemma ExactUnlock(log: seq<Entry>, now: nat, limitBp: nat, age: nat)
    requires UpTo(log, Stamp(now)) && limitBp > 0
    requires Window(log, Stamp(now) + age) >= Allowance(limitBp) > Window(log, Stamp(now) + age + 1)
    ensures UnlocksAfter(log, now, limitBp, Until(now, age))
  {
    hide Until, UpTo, Window, Allowance;
    forall t | now <= t
      ensures LockedAt(log, t, limitBp) <==> t < now + Until(now, age)
    {
      UntilIsTheFirst(now, age, t);
      Dividing(t, Stamp(now));
      if t < now + Until(now, age) {
        WindowFalls(log, Stamp(now), Stamp(t), Stamp(now) + age);
      } else {
        WindowFalls(log, Stamp(now), Stamp(now) + age + 1, Stamp(t));
      }
    }
  }

  class Airtime {
    const bins: array<real>
    var lastBinStamp: nat
    var started: bool

    /** What was sent since the clock last went back, or since `Reset`. */
    ghost var log: seq<Entry>

    ghost predicate Valid()
      reads this, bins
    {
      && bins.Length == BINS && Binned(bins[..], log, lastBinStamp)
      && UpTo(log, lastBinStamp) && lastBinStamp <= MAX_STAMP
      && (!started ==> log == [])
    }

    constructor ()
      ensures Valid() && fresh(bins) && !started && log == [] && lastBinStamp == 0
    {
      bins := new real[BINS](_ => 0.0);
      lastBinStamp, started, log := 0, false, [];
      new;
      BinnedNothing(bins[..], 0);
    }

    method Clear()
      requires bins.Length == BINS
      modifies bins
      ensures forall i :: 0 <= i < BINS ==> bins[i] == 0.0
    {
      for i := 0 to BINS
        invariant forall k :: 0 <= k < i ==> bins[k] == 0.0
      {
        bins[i] := 0.0;
      }
    }

    method Reset()
      requires Valid()
      modifies this, bins
      ensures Valid() && !started && log == [] && lastBinStamp == 0
    {
      Clear();
      started, lastBinStamp, log := false, 0, [];
      BinnedNothing(bins[..], 0);
    }

    /** Zeroes the bins of the minutes gone by, one at a time. */
    method ClearPassed(elapsed: nat)
      requires Valid() && elapsed < BINS
      modifies bins
      ensures Binned(bins[..], log, lastBinStamp + elapsed)
    {
      hide Binned, Bin;
      for i := 1 to elapsed + 1
        invariant bins.Length == BINS && Binned(bins[..], log, lastBinStamp + i - 1)
      {
        BinnedNext(bins[..], log, lastBinStamp, lastBinStamp + i - 1);
        bins[Bin(lastBinStamp + i)] := 0.0;
      }
    }

    /** The clock has reached `now`. A minute that lies back empties the log: the
        unsigned difference is then more than an hour. */
    method Rollover(now: nat)
      requires Valid() && now < TWO_TO_32
      modifies this, bins
      ensures Valid() && started && lastBinStamp == Stamp(now)
      ensures log == if Stamp(now) < old(lastBinStamp) then [] else old(log)
    {
      hide Binned;
      var stamp := Stamp(now);
      if !started {
        started := true;
        lastBinStamp := stamp;
        StillNothing(bins[..], old(lastBinStamp), stamp);
        return;
      }
      if stamp == lastBinStamp { return; }
      var elapsed := Gap(stamp, lastBinStamp);
      if elapsed >= BINS {
        Clear();
        if stamp < lastBinStamp {
          log := [];
          BinnedNothing(bins[..], stamp);
        } else {
          BinnedLater(bins[..], log, lastBinStamp, stamp);
        }
      } else {
        ClearPassed(elapsed);
      }
      lastBinStamp := stamp;
    }

    method AddTx(now: nat, air: real)
      requires Valid() && now < TWO_TO_32
      modifies this, bins
      ensures Valid()
      ensures air <= 0.0 ==> log == old(log) && lastBinStamp == old(lastBinStamp) && started == old(started)
      ensures air > 0.0 ==>
        && started && lastBinStamp == Stamp(now)
        && log == (if Stamp(now) < old(lastBinStamp) then [] else old(log)) + [Entry(Stamp(now), air)]
    {
      hide Binned;
      if air <= 0.0 { return; }
      Rollover(now);
      BinnedAdd(bins[..], log, lastBinStamp, air);
      UpToSnoc(log, lastBinStamp, air);
      BinInRange(Stamp(now));
      bins[Bin(Stamp(now))] := bins[Bin(Stamp(now))] + air;
      log := log + [Entry(Stamp(now), air)];
    }

    method Total() returns (sum: real)
      requires Valid()
      ensures sum == Window(log, lastBinStamp)
    {
      sum := 0.0;
      for i := 0 to BINS
        invariant sum == Sum(bins[..i])
      {
        sum := sum + bins[i];
        assert bins[..i + 1] == bins[..i] + [bins[i]];
        SumSnoc(bins[..i], bins[i]);
      }
      assert bins[..BINS] == bins[..];
      BinsSumToWindow(bins[..], log, lastBinStamp);
    }

    /** The share of the hour the log gives; nothing the bins add to it. */
    method LongTermUtil(now: nat) returns (util: real)
      requires Valid() && now < TWO_TO_32
      modifies this, bins
      ensures Valid() && started && lastBinStamp == Stamp(now)
      ensures log == if Stamp(now) < old(lastBinStamp) then [] else old(log)
      ensures util * 3600000.0 == Window(log, Stamp(now))
    {
      Rollover(now);
      var sum := Total();
      util := sum / 3600000.0;
    }

    /** The share of this minute and the one before it, of two minutes. */
    method ShortTermUtil(now: nat) returns (util: real)
      requires Valid() && now < TWO_TO_32
      modifies this, bins
      ensures Valid() && started && lastBinStamp == Stamp(now)
      ensures log == if Stamp(now) < old(lastBinStamp) then [] else old(log)
      ensures util * 120000.0 == SumAt(log, Stamp(now)) + SumAt(log, Stamp(now) - 1)
    {
      Rollover(now);
      var cur := Bin(Stamp(now));
      var prev := (cur + BINS - 1) % BINS;
      PrevBin(Stamp(now));
      StampOfSelf(Stamp(now));
      util := (bins[cur] + bins[prev]) / 120000.0;
    }

    method Locked(now: nat, limitBp: nat) returns (locked: bool)
      requires Valid() && now < TWO_TO_32
      modifies this, bins
      ensures Valid() && locked == LockedAt(log, now, limitBp)
      ensures locked <==> limitBp > 0 && 10000.0 * Window(log, Stamp(now)) >= limitBp as real * 3600000.0
      ensures limitBp > 0 ==> started && lastBinStamp == Stamp(now)
                              && log == if Stamp(now) < old(lastBinStamp) then [] else old(log)
      ensures limitBp == 0 ==> log == old(log) && lastBinStamp == old(lastBinStamp) && started == old(started)
    {
      if limitBp == 0 { return false; }
      var util := LongTermUtil(now);
      locked := util >= limitBp as real / 10000.0;
    }

    /** The share of the allowance: all of it, exactly when the channel is locked. */
    method BudgetUsed(now: nat, limitBp: nat) returns (used: real)
      requires Valid() && now < TWO_TO_32
      modifies this, bins
      ensures Valid() && (limitBp == 0 ==> used == 0.0)
      ensures limitBp > 0 ==> used * Allowance(limitBp) == Window(log, Stamp(now))
      ensures limitBp > 0 ==> used * (limitBp as real * 3600000.0) == 10000.0 * Window(log, Stamp(now))
      ensures limitBp > 0 ==> (used >= 1.0 <==> LockedAt(log, now, limitBp))
      ensures limitBp > 0 ==> log == if Stamp(now) < old(lastBinStamp) then [] else old(log)
    {
      if limitBp == 0 { return 0.0; }
      var util := LongTermUtil(now);
      used := util / (limitBp as real / 10000.0);
      ShareOfAllowance(util, used, limitBp as real / 10000.0);
    }

    /** The oldest bins given up one by one, until what is left is allowed. */
    method Search(now: nat, limitBp: nat) returns (age: nat)
      requires Valid() && lastBinStamp == Stamp(now) && LockedAt(log, now, limitBp)
      ensures UnlocksAfter(log, now, limitBp, Until(now, age))
    {
      hide Binned, UnlocksAfter, Allowance, Window, UpTo, Bin;
      var allowance := Allowance(limitBp);
      AllowancePositive(limitBp);
      var total := Total();
      var cur := Bin(Stamp(now));
      for k := 0 to BINS
        invariant total == Window(log, Stamp(now) + k) >= allowance
      {
        StampOfAge(Stamp(now), k);
        OldestBin(Stamp(now), k);
        WindowShifts(log, Stamp(now), Stamp(now) + k);
        BinnedAt(bins[..], log, Stamp(now), (cur + 1 + k) % BINS);
        total := total - bins[(cur + 1 + k) % BINS];
        if total < allowance {
          ExactUnlock(log, now, limitBp, k);
          return k;
        }
      }
      WindowRunsOut(log, Stamp(now));
      assert false;
    }

    /** `r` is exactly how long the channel stays locked if nothing more is sent, and 0
        when it is free; the answer is `r` in whole seconds, rounded down. The search
        always finds it. */
    method RetryAfterS(now: nat, limitBp: nat) returns (seconds: nat, ghost r: nat)
      requires Valid() && now < TWO_TO_32
      modifies this, bins
      ensures Valid() && seconds == r / 1000
      ensures UnlocksAfter(log, now, limitBp, r) && (r > 0 <==> LockedAt(log, now, limitBp))
      ensures limitBp > 0 ==> started && lastBinStamp == Stamp(now)
                              && log == if Stamp(now) < old(lastBinStamp) then [] else old(log)
      ensures limitBp == 0 ==> log == old(log) && lastBinStamp == old(lastBinStamp) && started == old(started)
    {
      hide UnlocksAfter;
      seconds, r := 0, 0;
      var locked := Locked(now, limitBp);
      if locked {
        var age := Search(now, limitBp);
        r := Until(now, age);
        var untilNextBin := BIN_MS - now % BIN_MS;
        seconds := (untilNextBin + age * BIN_MS) / 1000;
      } else if limitBp > 0 {
        StaysFree(log, now, limitBp);
      } else {
        NeverLocked(log, now);
      }
    }
  }

  /** Once under the allowance the hour stays under it. */
  lemma StaysFree(log: seq<Entry>, now: nat, limitBp: nat)
    requires UpTo(log, Stamp(now)) && !LockedAt(log, now, limitBp)
    ensures UnlocksAfter(log, now, limitBp, 0)
  {
    hide UpTo, Window, Allowance;
    forall t | now <= t
      ensures !LockedAt(log, t, limitBp)
    {
      Dividing(t, Stamp(now));
      WindowFalls(log, Stamp(now), Stamp(now), Stamp(t));
    }
  }

  lemma NeverLocked(log: seq<Entry>, now: nat)
    ensures UnlocksAfter(log, now, 0, 0)
  {
  }

  lemma ShareOfAllowance(util: real, used: real, share: real)
    requires share > 0.0 && used == util / share
    ensures used * share == util && used * (share * 3600000.0) == util * 3600000.0
    ensures used >= 1.0 <==> util >= share
  {
    assert used * share == util;
  }

  lemma AllowancePositive(limitBp: nat)
    requires limitBp > 0
    ensures Allowance(limitBp) > 0.0
  {
  }

  lemma StillNothing(bins: seq<real>, was: nat, m: nat)
    requires Binned(bins, [], was)
    ensures Binned(bins, [], m)
  {
  }

  lemma BinnedAt(bins: seq<real>, log: seq<Entry>, last: nat, i: nat)
    requires Binned(bins, log, last) && i < BINS
    ensures |bins| == BINS && bins[i] == SumAt(log, StampOf(i, last))
  {
  }

  lemma OldestBin(m: nat, age: nat)
    ensures (Bin(m) + 1 + age) % BINS == Bin(m + 1 + age) < BINS
  {
  }

  lemma PrevBin(m: nat)
    ensures (Bin(m) + BINS - 1) % BINS < BINS
    ensures StampOf((Bin(m) + BINS - 1) % BINS, m) == m - 1
  {
  }

  // ---------------------------------------------------------------------
  // Real time, on a clock of 32 bits
  // ---------------------------------------------------------------------

  /** A transmission, by the instant it was made, counted from the start and
      without end. */
  datatype Tx = Tx(at: nat, air: real)

  function Epoch(at: nat): nat { at / TWO_TO_32 }

  function Clock(at: nat): nat { Wrap(at) }

  /** Minutes counted on across every wrap of the clock. */
  function Minute(at: nat): nat { Epoch(at) * (MAX_STAMP + 1) + Stamp(Clock(at)) }

  predicate InHour(at: nat, now: nat) { Minute(now) < Minute(at) + BINS && Minute(at) <= Minute(now) }

  /** What was really sent in the last sixty minutes. */
  function HourSum(txs: seq<Tx>, now: nat): real {
    if txs == [] then 0.0 else HourSum(Init(txs), now) + if InHour(Last(txs).at, now) then Last(txs).air else 0.0
  }

  /** The part of it sent before the clock last wrapped. */
  function Forgotten(txs: seq<Tx>, now: nat): real {
    if txs == [] then 0.0
    else
      Forgotten(Init(txs), now)
      + if InHour(Last(txs).at, now) && Epoch(Last(txs).at) < Epoch(now) then Last(txs).air else 0.0
  }

  /** The transmissions of this turn of the clock, as entries of the log. */
  function Kept(txs: seq<Tx>, now: nat): seq<Entry> {
    if txs == [] then []
    else
      Kept(Init(txs), now)
      + if Epoch(Last(txs).at) == Epoch(now) then [Entry(Stamp(Clock(Last(txs).at)), Last(txs).air)] else []
  }

  predicate Sensible(txs: seq<Tx>, now: nat) {
    forall i :: 0 <= i < |txs| ==> txs[i].at <= now && txs[i].air > 0.0
  }

  lemma MinuteAcross(at: nat, now: nat)
    requires at <= now
    ensures Epoch(at) <= Epoch(now) && Minute(at) <= Minute(now)
    ensures Epoch(at) == Epoch(now) ==> Clock(at) <= Clock(now) && Stamp(Clock(at)) <= Stamp(Clock(now))
    ensures Epoch(at) == Epoch(now) ==> Minute(now) - Minute(at) == Stamp(Clock(now)) - Stamp(Clock(at))
  {
    StampOfClock(at);
    StampOfClock(now);
    EpochAndClock(at);
    EpochAndClock(now);
    EpochOrder(at, now);
    if Epoch(at) < Epoch(now) {
      assert Epoch(now) * (MAX_STAMP + 1) >= (Epoch(at) + 1) * (MAX_STAMP + 1);
    }
  }

  lemma EpochAndClock(at: nat)
    ensures at == Epoch(at) * TWO_TO_32 + Clock(at) && Clock(at) < TWO_TO_32
  {
  }

  lemma StampOfClock(at: nat)
    ensures Stamp(Clock(at)) <= MAX_STAMP
  {
  }

  lemma WindowSnoc(log: seq<Entry>, e: Entry, last: int)
    ensures Window(log + [e], last) == Window(log, last) + if last - BINS < e.stamp <= last then e.air else 0.0
  {
    assert Init(log + [e]) == log;
  }

  /** What is counted and what is forgotten make up the hour. */
  lemma {:induction false} HourIsKeptAndForgotten(txs: seq<Tx>, now: nat)
    requires Sensible(txs, now)
    ensures HourSum(txs, now) == Window(Kept(txs, now), Stamp(Clock(now))) + Forgotten(txs, now)
  {
    hide Minute, Clock, Epoch, Window;
    if txs == [] {
      WindowOfNothing(Stamp(Clock(now)));
    } else {
      HourIsKeptAndForgotten(Init(txs), now);
      MinuteAcross(Last(txs).at, now);
      WindowSnoc(Kept(Init(txs), now), Entry(Stamp(Clock(Last(txs).at)), Last(txs).air), Stamp(Clock(now)));
      assert Kept(Init(txs), now) + [] == Kept(Init(txs), now);
    }
  }

  lemma WindowOfNothing(last: int)
    ensures Window([], last) == 0.0
  {
  }

  lemma {:induction false} NothingForgottenIff(txs: seq<Tx>, now: nat)
    requires Sensible(txs, now)
    ensures Forgotten(txs, now) >= 0.0
    ensures Forgotten(txs, now) == 0.0 <==>
      forall i :: 0 <= i < |txs| && InHour(txs[i].at, now) ==> Epoch(txs[i].at) == Epoch(now)
  {
    hide InHour, Epoch;
    if txs != [] {
      NothingForgottenIff(Init(txs), now);
      EpochOrder(Last(txs).at, now);
    }
  }

  lemma EpochOrder(at: nat, now: nat)
    requires at <= now
    ensures Epoch(at) <= Epoch(now)
  {
  }

  datatype Call = Sent(at: nat, air: real) | Asked(at: nat)

  /** A call that looks at the clock: every one but a transmission of no length. */
  predicate Looks(c: Call) { c.Asked? || c.air > 0.0 }

  function Txs(calls: seq<Call>): seq<Tx> {
    if calls == [] then []
    else
      Txs(Init(calls))
      + if Last(calls).Sent? && Last(calls).air > 0.0 then [Tx(Last(calls).at, Last(calls).air)] else []
  }

  /** When the clock was last looked at. */
  function Seen(calls: seq<Call>): Option<nat> {
    if calls == [] then None else if Looks(Last(calls)) then Some(Last(calls).at) else Seen(Init(calls))
  }

  /** Calls in the order of time, the clock never unlooked at for a whole turn of it. */
  predicate Steady(calls: seq<Call>) {
    calls == []
    || (Steady(Init(calls))
        && match Seen(Init(calls))
           case None => true
           case Some(was) => was <= Last(calls).at < was + TWO_TO_32 - BIN_MS)
  }

  lemma {:induction false} TxsAreSensible(calls: seq<Call>, now: nat)
    requires Steady(calls) && (Seen(calls).Some? ==> Seen(calls).value <= now)
    ensures Sensible(Txs(calls), now) && (Seen(calls).None? ==> Txs(calls) == [])
  {
    if calls != [] {
      TxsAreSensible(Init(calls), now);
    }
  }

  /** Within a turn of the clock nothing is forgotten; past its end everything is,
      and the minute has gone back. */
  lemma {:induction false} KeptLater(txs: seq<Tx>, was: nat, now: nat)
    requires Sensible(txs, was) && was <= now
    ensures Epoch(was) == Epoch(now) ==> Kept(txs, now) == Kept(txs, was)
    ensures Epoch(was) < Epoch(now) ==> Kept(txs, now) == []
  {
    hide Epoch, Clock;
    if txs != [] {
      KeptLater(Init(txs), was, now);
      EpochOrder(Last(txs).at, was);
    }
  }

  lemma BackIsAWrap(was: nat, now: nat)
    requires was <= now < was + TWO_TO_32 - BIN_MS
    ensures Epoch(was) <= Epoch(now)
    ensures Stamp(Clock(now)) < Stamp(Clock(was)) <==> Epoch(was) < Epoch(now)
  {
    MinuteAcross(was, now);
    EpochAndClock(was);
    EpochAndClock(now);
    if Epoch(was) < Epoch(now) {
      assert Epoch(now) == Epoch(was) + 1;
      assert Clock(now) < Clock(was) - BIN_MS;
    }
  }

  /** After any such calls the log is what was sent on this turn of the clock. */
  method Replay(a: Airtime, calls: seq<Call>)
    requires a.Valid() && !a.started && a.lastBinStamp == 0 && Steady(calls)
    modifies a, a.bins
    ensures a.Valid() && Follows(a, calls)
  {
    hide Steady, Follows, a.Valid;
    FollowsNothing(a);
    var i := 0;
    while i < |calls|
      invariant 0 <= i <= |calls| && a.Valid() && Follows(a, calls[..i])
    {
      SteadyPrefix(calls, i + 1);
      assert calls[..i + 1] == calls[..i] + [calls[i]];
      Ask(a, calls[..i], calls[i]);
      i := i + 1;
    }
    assert calls[..i] == calls;
  }

  lemma FollowsNothing(a: Airtime)
    requires a.Valid() && !a.started && a.lastBinStamp == 0
    ensures Follows(a, [])
  {
  }

  /** The log is this turn's transmissions, and the bin that of the last look. */
  ghost predicate Follows(a: Airtime, calls: seq<Call>)
    reads a
  {
    match Seen(calls)
    case None => !a.started && a.log == [] && a.lastBinStamp == 0
    case Some(now) => a.started && a.log == Kept(Txs(calls), now) && a.lastBinStamp == Stamp(Clock(now))
  }

  lemma {:induction false} SteadyPrefix(calls: seq<Call>, k: nat)
    requires Steady(calls) && k <= |calls|
    ensures Steady(calls[..k])
  {
    if k < |calls| {
      SteadyPrefix(Init(calls), k);
      assert Init(calls)[..k] == calls[..k];
    } else {
      assert calls[..k] == calls;
    }
  }

  method Ask(a: Airtime, calls: seq<Call>, call: Call)
    requires a.Valid() && Steady(calls + [call]) && Follows(a, calls)
    modifies a, a.bins
    ensures a.Valid() && Follows(a, calls + [call])
  {
    hide Binned, Stamp, Clock, Epoch, Kept, Sensible;
    CallSnoc(calls, call);
    if Looks(call) { LogAfter(calls, call); }
    assert Txs(calls) + [] == Txs(calls);
    match call
    case Sent(at, air) =>
      ClockFits(at);
      a.AddTx(Clock(at), air);
    case Asked(at) =>
      ClockFits(at);
      var util := a.LongTermUtil(Clock(at));
  }

  lemma ClockFits(at: nat)
    ensures Clock(at) < TWO_TO_32
  {
  }

  lemma CallSnoc(calls: seq<Call>, call: Call)
    ensures Init(calls + [call]) == calls && Last(calls + [call]) == call
  {
  }

  lemma KeptSnoc(txs: seq<Tx>, tx: Tx)
    ensures Kept(txs + [tx], tx.at) == Kept(txs, tx.at) + [Entry(Stamp(Clock(tx.at)), tx.air)]
  {
    assert Init(txs + [tx]) == txs;
  }

  function Added(call: Call): seq<Entry> {
    if call.Sent? then [Entry(Stamp(Clock(call.at)), call.air)] else []
  }

  lemma KeptNext(calls: seq<Call>, call: Call)
    requires Looks(call)
    ensures Kept(Txs(calls + [call]), call.at) == Kept(Txs(calls), call.at) + Added(call)
  {
    hide Kept, Stamp, Clock;
    CallSnoc(calls, call);
    if call.Sent? {
      KeptSnoc(Txs(calls), Tx(call.at, call.air));
    } else {
      assert Txs(calls) + [] == Txs(calls);
    }
  }

  /** What `Rollover` leaves of the log and `AddTx` adds to it, in real time. */
  lemma LogAfter(calls: seq<Call>, call: Call)
    requires Steady(calls + [call]) && Looks(call)
    ensures var more := Kept(Txs(calls + [call]), call.at);
      match Seen(calls) {
        case None => more == Added(call)
        case Some(was) =>
          more == (if Stamp(Clock(call.at)) < Stamp(Clock(was)) then [] else Kept(Txs(calls), was)) + Added(call)
      }
  {
    hide Sensible, Clock, Epoch, Stamp;
    CallSnoc(calls, call);
    KeptNext(calls, call);
    if Seen(calls).Some? {
      var was := Seen(calls).value;
      TxsAreSensible(calls, was);
      BackIsAWrap(was, call.at);
      KeptLater(Txs(calls), was, call.at);
    } else {
      TxsAreSensible(calls, 0);
    }
  }

  /** The answer after any run is what was really sent in the hour, less what was
      sent before the clock wrapped: so it is right exactly when nothing was sent
      in the hour before a wrap. */
  method UtilAfter(a: Airtime, calls: seq<Call>, now: nat) returns (util: real)
    requires a.Valid() && Follows(a, calls) && Steady(calls + [Asked(now)])
    modifies a, a.bins
    ensures a.Valid() && Follows(a, calls + [Asked(now)])
    ensures util * 3600000.0 == HourSum(Txs(calls), now) - Forgotten(Txs(calls), now)
    ensures util * 3600000.0 == HourSum(Txs(calls), now) <==>
      forall i :: 0 <= i < |Txs(calls)| && InHour(Txs(calls)[i].at, now) ==> Epoch(Txs(calls)[i].at) == Epoch(now)
  {
    hide Binned, Stamp, Clock, Epoch, Kept, Sensible, InHour, HourSum, Forgotten, Window;
    CallSnoc(calls, Asked(now));
    LogAfter(calls, Asked(now));
    KeptNext(calls, Asked(now));
    ClockFits(now);
    TxsAreSensible(calls, now);
    HourIsKeptAndForgotten(Txs(calls), now);
    NothingForgottenIff(Txs(calls), now);
    assert Txs(calls) + [] == Txs(calls);
    util := a.LongTermUtil(Clock(now));
  }

  /** In real time: after any run of calls, with nothing more sent, the channel is
      locked from now until `r` milliseconds on or the next wrap of the clock, whichever
      comes first. */
  method RetryAfter(a: Airtime, calls: seq<Call>, now: nat, limitBp: nat) returns (seconds: nat, ghost r: nat)
    requires a.Valid() && Follows(a, calls) && Steady(calls + [Asked(now)])
    modifies a, a.bins
    ensures a.Valid() && Follows(a, if limitBp > 0 then calls + [Asked(now)] else calls) && seconds == r / 1000
    ensures forall t :: now <= t ==>
      (LockedAt(Kept(Txs(calls), t), Clock(t), limitBp) <==> t < now + r && Epoch(t) == Epoch(now))
  {
    hide Binned, Stamp, Clock, Epoch, Kept, Sensible, LockedAt, UnlocksAfter;
    CallSnoc(calls, Asked(now));
    LogAfter(calls, Asked(now));
    KeptNext(calls, Asked(now));
    ClockFits(now);
    TxsAreSensible(calls, now);
    assert Txs(calls) + [] == Txs(calls);
    assert Seen(calls + [Asked(now)]) == Some(now);
    seconds, r := a.RetryAfterS(Clock(now), limitBp);
    assert limitBp > 0 ==> a.log == Kept(Txs(calls), now);
    if limitBp == 0 { FreeWithoutLimit(a.log, Clock(now)); }
    forall t | now <= t
      ensures LockedAt(Kept(Txs(calls), t), Clock(t), limitBp) <==> t < now + r && Epoch(t) == Epoch(now)
    {
      if limitBp > 0 {
        LockedUntil(Txs(calls), now, t, limitBp, r);
      } else {
        FreeWithoutLimit(Kept(Txs(calls), t), Clock(t));
      }
    }
  }

  lemma FreeWithoutLimit(log: seq<Entry>, now: nat)
    ensures !LockedAt(log, now, 0)
  {
  }

  lemma LockedUntil(txs: seq<Tx>, now: nat, t: nat, limitBp: nat, r: nat)
    requires Sensible(txs, now) && now <= t && limitBp > 0
    requires UnlocksAfter(Kept(txs, now), Clock(now), limitBp, r)
    ensures LockedAt(Kept(txs, t), Clock(t), limitBp) <==> t < now + r && Epoch(t) == Epoch(now)
  {
    hide Clock, Epoch, Kept, Sensible, Window, Allowance, Stamp;
    EpochOrder(now, t);
    KeptLater(txs, now, t);
    if Epoch(t) == Epoch(now) {
      EpochAndClock(now);
      EpochAndClock(t);
    } else {
      WindowOfNothing(Stamp(Clock(t)));
      AllowancePositive(limitBp);
    }
  }

  /** Not even an hour of air just before the wrap is remembered just after it. */
  lemma WrapForgets(air: real)
    requires air > 0.0
    ensures var txs := [Tx(TWO_TO_32 - 1, air)];
      && HourSum(txs, TWO_TO_32) == air
      && Window(Kept(txs, TWO_TO_32), Stamp(Clock(TWO_TO_32))) == 0.0
  {
    var txs := [Tx(TWO_TO_32 - 1, air)];
    assert Init(txs) == [];
    assert Minute(TWO_TO_32 - 1) == MAX_STAMP && Minute(TWO_TO_32) == MAX_STAMP + 1;
    assert Kept(txs, TWO_TO_32) == [];
  }
}
