/** The exact one-sided p-value of tools/hil_frames.py: how surprising it is that so
    many of the misses fell in the duty-cycled arm. Sums are exact here. */
module HilPvalue {

  /** Ways to choose `k` of `n`. */
  function Comb(n: nat, k: int): nat {
    if k < 0 then 0
    else if n == 0 then (if k == 0 then 1 else 0)
    else Comb(n - 1, k - 1) + Comb(n - 1, k)
  }

  /** Ways to choose which `m` of all the frames were missed with at least `lo` of
      them among the `a` of the on arm, deciding frame by frame: the `a` first, then
      the `b` of the off arm. */
  function AtLeast(a: nat, b: nat, m: int, lo: int): nat {
    if m < 0 then 0
    else if a > 0 then AtLeast(a - 1, b, m, lo) + AtLeast(a - 1, b, m - 1, lo - 1)
    else if b > 0 then AtLeast(0, b - 1, m, lo) + AtLeast(0, b - 1, m - 1, lo)
    else if m == 0 && lo <= 0 then 1 else 0
  }

  /** The program's terms from `lo` to `hi`. */
  function Terms(a: nat, b: nat, m: int, lo: int, hi: int): nat
    decreases if hi >= lo then hi - lo + 1 else 0
  {
    if hi < lo then 0 else Terms(a, b, m, lo, hi - 1) + Comb(a, hi) * Comb(b, m - hi)
  }

  lemma {:induction false} CombBounds(n: nat, k: int)
    ensures Comb(n, k) > 0 <==> 0 <= k <= n
  {
    if n > 0 && k >= 0 {
      CombBounds(n - 1, k - 1);
      CombBounds(n - 1, k);
    }
  }

  lemma Expand(a: nat, b: nat, m: int, k: int)
    ensures Comb(a + 1, k) * Comb(b, m - k)
         == Comb(a, k) * Comb(b, m - k) + Comb(a, k - 1) * Comb(b, (m - 1) - (k - 1))
  {
    assert Comb(a + 1, k) == Comb(a, k) + Comb(a, k - 1);
    assert (m - 1) - (k - 1) == m - k;
    Distribute(Comb(a, k), Comb(a, k - 1), Comb(b, m - k));
  }

  lemma Distribute(x: nat, y: nat, z: nat)
    ensures (x + y) * z == x * z + y * z
  {
  }

  /** One more frame in the on arm: missed, or not. */
  lemma {:induction false} TermsNext(a: nat, b: nat, m: int, lo: int, hi: int)
    ensures Terms(a + 1, b, m, lo, hi) == Terms(a, b, m, lo, hi) + Terms(a, b, m - 1, lo - 1, hi - 1)
    decreases if hi >= lo then hi - lo + 1 else 0
  {
    hide Comb;
    if hi >= lo {
      TermsNext(a, b, m, lo, hi - 1);
      Expand(a, b, m, hi);
    }
  }

  lemma {:induction false} TermsNone(b: nat, m: int, lo: int, hi: int)
    ensures Terms(0, b, m, lo, hi) == if lo <= 0 <= hi then Comb(b, m) else 0
    decreases if hi >= lo then hi - lo + 1 else 0
  {
    if hi >= lo {
      TermsNone(b, m, lo, hi - 1);
      CombBounds(0, hi);
      if hi == 0 { assert Comb(0, 0) == 1; } else { Zero(Comb(0, hi), Comb(b, m - hi)); }
    }
  }

  lemma Zero(x: nat, y: nat)
    requires x == 0 || y == 0
    ensures x * y == 0
  {
  }

  lemma {:induction false} AtLeastNone(b: nat, m: int, lo: int)
    ensures AtLeast(0, b, m, lo) == if lo <= 0 then Comb(b, m) else 0
  {
    if m >= 0 && b > 0 {
      AtLeastNone(b - 1, m, lo);
      AtLeastNone(b - 1, m - 1, lo);
    }
  }

  /** The program's sum counts the choices. */
  lemma {:induction false} TermsCount(a: nat, b: nat, m: int, lo: int)
    ensures Terms(a, b, m, lo, m) == AtLeast(a, b, m, lo)
    decreases a
  {
    if a == 0 {
      TermsNone(b, m, lo, m);
      AtLeastNone(b, m, lo);
      if m < 0 { CombBounds(b, m); }
    } else {
      TermsNext(a - 1, b, m, lo, m);
      TermsCount(a - 1, b, m, lo);
      TermsCount(a - 1, b, m - 1, lo - 1);
      if m < 0 { TermsNegative(a, b, m, lo, m); }
    }
  }

  lemma {:induction false} TermsNegative(a: nat, b: nat, m: int, lo: int, hi: int)
    requires hi < 0
    ensures Terms(a, b, m, lo, hi) == 0
    decreases if hi >= lo then hi - lo + 1 else 0
  {
    if hi >= lo {
      TermsNegative(a, b, m, lo, hi - 1);
      CombBounds(a, hi);
      Zero(Comb(a, hi), Comb(b, m - hi));
    }
  }

  /** Vandermonde's identity, as the number of choices with no demand on the arms. */
  lemma {:induction false} Vandermonde(a: nat, b: nat, m: int, lo: int)
    requires lo <= 0
    ensures AtLeast(a, b, m, lo) == Comb(a + b, m)
    decreases a
  {
    if a == 0 {
      AtLeastNone(b, m, lo);
    } else if m >= 0 {
      Vandermonde(a - 1, b, m, lo);
      Vandermonde(a - 1, b, m - 1, lo - 1);
    }
  }

  lemma {:induction false} TermsSplit(a: nat, b: nat, m: int, lo: int, mid: int, hi: int)
    requires lo <= mid + 1 && mid <= hi
    ensures Terms(a, b, m, lo, hi) == Terms(a, b, m, lo, mid) + Terms(a, b, m, mid + 1, hi)
    decreases hi - mid
  {
    hide Comb;
    if mid < hi { TermsSplit(a, b, m, lo, mid, hi - 1); }
  }

  /** Asking for one more miss in the on arm gives up the choices with exactly so
      many there. */
  lemma AtLeastMore(a: nat, b: nat, m: int, lo: int)
    requires lo <= m
    ensures AtLeast(a, b, m, lo) == AtLeast(a, b, m, lo + 1) + Comb(a, lo) * Comb(b, m - lo)
  {
    hide Comb;
    TermsCount(a, b, m, lo);
    TermsCount(a, b, m, lo + 1);
    TermsSplit(a, b, m, lo, lo, m);
    assert Terms(a, b, m, lo, lo) == Terms(a, b, m, lo, lo - 1) + Comb(a, lo) * Comb(b, m - lo);
  }

  lemma Positive(x: nat, y: nat)
    ensures x * y > 0 <==> x > 0 && y > 0
  {
    if x == 0 || y == 0 { Zero(x, y); }
  }

  /** The probability that at least `mOn` of the misses fall in the on arm when every
      choice of the frames missed is as likely as any other. */
  ghost function P(mOn: nat, nOn: nat, mOff: nat, nOff: nat): real
    requires mOn <= nOn && mOff <= nOff
  {
    CombBounds(nOn + nOff, mOn + mOff);
    AtLeast(nOn, nOff, mOn + mOff, mOn) as real / Comb(nOn + nOff, mOn + mOff) as real
  }

  lemma {:induction false} AtLeastFalls(a: nat, b: nat, m: nat, lo: nat)
    requires lo <= m
    ensures AtLeast(a, b, m, lo) <= AtLeast(a, b, m, 0)
    decreases lo
  {
    hide AtLeast, Comb;
    if lo > 0 {
      AtLeastFalls(a, b, m, lo - 1);
      AtLeastMore(a, b, m, lo - 1);
    }
  }

  lemma Fraction(x: nat, y: nat, t: nat)
    requires t > 0
    ensures x <= y ==> x as real / t as real <= y as real / t as real
    ensures x < y ==> x as real / t as real < y as real / t as real
    ensures t as real / t as real == 1.0 && 0 as real / t as real == 0.0
  {
  }

  /** A true probability, and never nothing. */
  lemma IsProbability(mOn: nat, nOn: nat, mOff: nat, nOff: nat)
    requires mOn <= nOn && mOff <= nOff
    ensures 0.0 < P(mOn, nOn, mOff, nOff) <= 1.0
    ensures mOn == 0 ==> P(mOn, nOn, mOff, nOff) == 1.0
  {
    hide AtLeast, Comb;
    var m := mOn + mOff;
    var total := Comb(nOn + nOff, m);
    CombBounds(nOn + nOff, m);
    CombBounds(nOn, mOn);
    CombBounds(nOff, mOff);
    AtLeastMore(nOn, nOff, m, mOn);
    Positive(Comb(nOn, mOn), Comb(nOff, m - mOn));
    AtLeastFalls(nOn, nOff, m, mOn);
    Vandermonde(nOn, nOff, m, 0);
    Fraction(0, AtLeast(nOn, nOff, m, mOn), total);
    Fraction(AtLeast(nOn, nOff, m, mOn), total, total);
  }

  /** One miss more in the on arm and one fewer in the off arm is more surprising. */
  lemma StrictlyFalls(mOn: nat, nOn: nat, mOff: nat, nOff: nat)
    requires mOn + 1 <= nOn && 1 <= mOff <= nOff
    ensures P(mOn + 1, nOn, mOff - 1, nOff) < P(mOn, nOn, mOff, nOff)
  {
    hide AtLeast, Comb;
    var m := mOn + mOff;
    CombBounds(nOn + nOff, m);
    CombBounds(nOn, mOn);
    CombBounds(nOff, mOff);
    AtLeastMore(nOn, nOff, m, mOn);
    Positive(Comb(nOn, mOn), Comb(nOff, m - mOn));
    Fraction(AtLeast(nOn, nOff, m, mOn + 1), AtLeast(nOn, nOff, m, mOn), Comb(nOn + nOff, m));
  }

  /** It is no surprise at all exactly when no miss was in the on arm, or every frame
      of the off arm was one. */
  lemma OneIff(mOn: nat, nOn: nat, mOff: nat, nOff: nat)
    requires mOn <= nOn && mOff <= nOff
    ensures P(mOn, nOn, mOff, nOff) == 1.0 <==> mOn == 0 || mOff == nOff
  {
    if mOn == 0 {
      IsProbability(mOn, nOn, mOff, nOff);
    } else if mOff < nOff {
      StrictlyFalls(mOn - 1, nOn, mOff + 1, nOff);
      IsProbability(mOn - 1, nOn, mOff + 1, nOff);
    } else {
      hide AtLeast, Comb;
      AllInTheOffArm(nOn, nOff, mOn);
      Vandermonde(nOn, nOff, mOn + mOff, 0);
      CombBounds(nOn + nOff, mOn + mOff);
      Fraction(0, 0, Comb(nOn + nOff, mOn + mOff));
    }
  }

  lemma {:induction false} AllInTheOffArm(a: nat, b: nat, x: nat)
    ensures AtLeast(a, b, x + b, x) == AtLeast(a, b, x + b, 0)
  {
    NoFewer(a, b, x + b, x);
  }

  lemma {:induction false} NoFewer(a: nat, b: nat, m: nat, lo: nat)
    requires lo + b <= m
    ensures AtLeast(a, b, m, lo) == AtLeast(a, b, m, 0)
    decreases lo
  {
    hide AtLeast, Comb;
    if lo > 0 {
      NoFewer(a, b, m, lo - 1);
      AtLeastMore(a, b, m, lo - 1);
      CombBounds(b, m - (lo - 1));
      Zero(Comb(a, lo - 1), Comb(b, m - (lo - 1)));
    }
  }

  /** Past the on arm's size nothing is added. */
  lemma {:induction false} TermsBeyond(a: nat, b: nat, m: int, lo: int, hi: int)
    requires hi >= a
    ensures Terms(a, b, m, lo, hi) == Terms(a, b, m, lo, a)
    decreases hi
  {
    hide Comb;
    if hi > a {
      TermsBeyond(a, b, m, lo, hi - 1);
      CombBounds(a, hi);
      Zero(Comb(a, hi), Comb(b, m - hi));
    }
  }

  /** The program's loop gives that probability. `min` never takes anything off. */
  method ExcessLossPvalue(mOn: nat, nOn: nat, mOff: nat, nOff: nat) returns (p: real)
    requires mOn <= nOn && mOff <= nOff
    ensures p == P(mOn, nOn, mOff, nOff)
  {
    hide AtLeast, Comb;
    var m, n := mOn + mOff, nOn + nOff;
    IsProbability(mOn, nOn, mOff, nOff);
    if m == 0 || nOn == 0 || nOff == 0 {
      OneIff(mOn, nOn, mOff, nOff);
      return 1.0;
    }
    CombBounds(n, m);
    var total := Comb(n, m);
    p := 0.0;
    Fraction(0, 0, total);
    var top := if m < nOn then m else nOn;
    for k := mOn to top + 1
      invariant p == Terms(nOn, nOff, m, mOn, k - 1) as real / total as real
    {
      NextTerm(nOn, nOff, m, mOn, k);
      if m - k <= nOff {
        var ways := Comb(nOn, k) * Comb(nOff, m - k);
        Adds(Terms(nOn, nOff, m, mOn, k - 1), ways, total);
        p := p + ways as real / total as real;
      }
    }
    if nOn < m { TermsBeyond(nOn, nOff, m, mOn, m); }
    TermsCount(nOn, nOff, m, mOn);
    p := if 1.0 < p then 1.0 else p;
  }

  lemma NextTerm(a: nat, b: nat, m: int, lo: int, k: int)
    requires lo <= k
    ensures Terms(a, b, m, lo, k) == Terms(a, b, m, lo, k - 1) + Comb(a, k) * Comb(b, m - k)
    ensures m - k > b ==> Terms(a, b, m, lo, k) == Terms(a, b, m, lo, k - 1)
  {
    hide Comb;
    CombBounds(b, m - k);
    if m - k > b { Zero(Comb(a, k), Comb(b, m - k)); }
  }

  lemma Adds(x: nat, y: nat, t: nat)
    requires t > 0
    ensures x as real / t as real + y as real / t as real == (x + y) as real / t as real
  {
  }
}
