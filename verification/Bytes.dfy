/** Octets, 32-bit words, and the few shorthands every other module uses. */
module Bytes {

  newtype byte = x: int | 0 <= x < 256

  /** The two octets section 4.2 of RFC 1662 keeps for itself. */
  const FLAG: byte := 0x7E
  const ESC: byte := 0x7D

  const TWO_TO_32: nat := 0x1_0000_0000

  /** A count or a clock as a 32-bit word holds it. */
  function Wrap(x: nat): nat { x % TWO_TO_32 }

  /** Unsigned 32-bit subtraction. */
  function Gap(a: nat, b: nat): nat { (a - b) % TWO_TO_32 }

  /** A word is below 2^32, small numbers are themselves, and one turn changes nothing. */
  lemma WordIs(x: nat)
    ensures Wrap(x) < 0x1_0000_0000 && (x < 0x1_0000_0000 ==> Wrap(x) == x)
    ensures Wrap(x + 0x1_0000_0000) == Wrap(x)
  {
  }

  /** Adding the gap to the one gives the other, on the word. */
  lemma GapIs(a: nat, b: nat)
    ensures Gap(a, b) < 0x1_0000_0000 && Wrap(b + Gap(a, b)) == Wrap(a)
  {
    var d, g := a - b, Gap(a, b);
    var k := (a - b) / TWO_TO_32;
    assert b + g == a - k * TWO_TO_32;
    Turns(a, b + g, k);
  }

  lemma Turns(a: nat, c: nat, k: int)
    requires a - c == k * TWO_TO_32
    ensures Wrap(a) == Wrap(c)
  {
    var q := c / TWO_TO_32;
    assert a == (q + k) * TWO_TO_32 + c % TWO_TO_32;
  }

  /** The gap between two readings of a wrapping clock is the real one, wrapped. */
  lemma WrappedGap(now: nat, since: nat)
    requires since <= now
    ensures Gap(Wrap(now), Wrap(since)) == Wrap(now - since)
  {
    var q, r := now / TWO_TO_32, since / TWO_TO_32;
    assert Wrap(now) - Wrap(since) == (now - since) - (q - r) * TWO_TO_32;
  }

  datatype Option<+T> = None | Some(value: T)

  function Last<T>(s: seq<T>): T
    requires s != []
  {
    s[|s| - 1]
  }

  function Init<T>(s: seq<T>): seq<T>
    requires s != []
  {
    s[..|s| - 1]
  }

  /** Exclusive-or with 0x20: bit 5 changes, and doing it twice undoes it. */
  function Flip(b: byte): byte {
    if b / 32 % 2 == 1 then b - 32 else b + 32
  }

  /** Bit 5 is turned over and every other bit stays. */
  lemma FlipsBitFive(b: byte)
    ensures Flip(b) % 32 == b % 32 && Flip(b) / 64 == b / 64
    ensures Flip(b) / 32 % 2 == 1 - b / 32 % 2
  {
  }

  function Concat<T>(ss: seq<seq<T>>): seq<T> {
    if ss == [] then [] else Concat(Init(ss)) + Last(ss)
  }

  lemma ConcatSnoc<T>(ss: seq<seq<T>>, s: seq<T>)
    ensures Concat(ss + [s]) == Concat(ss) + s
  {
    assert Init(ss + [s]) == ss;
  }

  lemma {:induction false} ConcatCons<T>(s: seq<T>, ss: seq<seq<T>>)
    ensures Concat([s] + ss) == s + Concat(ss)
  {
    if ss == [] {
      assert [s] + ss == [] + [s];
      ConcatSnoc([], s);
    } else {
      ConcatCons(s, Init(ss));
      assert [s] + ss == ([s] + Init(ss)) + [Last(ss)];
      ConcatSnoc([s] + Init(ss), Last(ss));
    }
  }

  // Steps of a run, by whose they are.

  function Own<T>(steps: seq<T>, own: T -> bool): nat {
    if steps == [] then 0 else Own(Init(steps), own) + if own(Last(steps)) then 1 else 0
  }

  /** What is left to do never grows, and a step of one's own makes it less. */
  predicate Nearer(own: bool, was: nat, now: nat) { if own then now < was else now <= was }

  // Products and quotients by a number that is not known.

  function Quot(i: nat, d: nat): nat
    requires d > 0
  {
    i / d
  }

  function Rem(i: nat, d: nat): (r: nat)
    requires d > 0
    ensures r < d
  {
    i % d
  }

  function Times(p: nat, d: nat): nat { p * d }

  lemma QuotRem(i: nat, d: nat)
    requires d > 0
    ensures i == Times(Quot(i, d), d) + Rem(i, d)
  {
  }

  lemma {:induction false} TimesApart(a: nat, b: nat, d: nat)
    requires a < b
    ensures Times(a, d) + d <= Times(b, d)
  {
    if a + 1 < b { TimesApart(a, b - 1, d); }
  }

  lemma Divides(d: nat, p: nat, q: nat)
    requires q < d
    ensures Quot(Times(p, d) + q, d) == p && Rem(Times(p, d) + q, d) == q
  {
    hide Quot, Rem;
    var i := Times(p, d) + q;
    QuotRem(i, d);
    hide Times;
    if Quot(i, d) < p { TimesApart(Quot(i, d), p, d); }
    if p < Quot(i, d) { TimesApart(p, Quot(i, d), d); }
  }
}
