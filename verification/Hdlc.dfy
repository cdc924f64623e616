/** The octet-stuffed framing of src/net/HDLC.h.

    The first half defines what a byte stream *means*, without a parser: the
    segments between its flags, and what each segment is once its escapes are
    undone. The second half is the code: `Frame`, which fills an output buffer
    in a loop, and the streaming `Deframer`, proved against that meaning for
    every stream, well formed or not. */
module Hdlc {

  import opened Bytes

  const RNS_MTU: nat := 500

  // ---------------------------------------------------------------------
  // What framing means
  // ---------------------------------------------------------------------

  function FrameCapacity(len: nat): nat { 2 + 2 * len }

  function EscapedByte(b: byte): seq<byte> {
    if b == FLAG || b == ESC then [ESC, Flip(b)] else [b]
  }

  function Stuff(p: seq<byte>): seq<byte> {
    if p == [] then [] else Stuff(Init(p)) + EscapedByte(Last(p))
  }

  function Framed(p: seq<byte>): seq<byte> { [FLAG] + Stuff(p) + [FLAG] }

  /** The framings of a list of packets, back to back on one wire. */
  function FramedAll(ps: seq<seq<byte>>): seq<byte> {
    if ps == [] then [] else FramedAll(Init(ps)) + Framed(Last(ps))
  }

  // ---------------------------------------------------------------------
  // What a stream means
  // ---------------------------------------------------------------------

  /** A byte straight after an escape has one bit flipped; escapes vanish. */
  function Unescape(seg: seq<byte>): seq<byte> {
    if seg == [] then []
    else if Last(seg) == ESC then Unescape(Init(seg))
    else if Init(seg) != [] && Last(Init(seg)) == ESC then Unescape(Init(seg)) + [Flip(Last(seg))]
    else Unescape(Init(seg)) + [Last(seg)]
  }

  /** The bytes after the last flag. */
  function Open(s: seq<byte>): seq<byte>
    requires FLAG in s
  {
    if Last(s) == FLAG then [] else
      assert FLAG in Init(s);
      Open(Init(s)) + [Last(s)]
  }

  /** The segments strictly between consecutive flags. */
  function Closed(s: seq<byte>): seq<seq<byte>> {
    if s == [] then []
    else if Last(s) == FLAG && FLAG in Init(s) then Closed(Init(s)) + [Open(Init(s))]
    else Closed(Init(s))
  }

  predicate Fits(p: seq<byte>) { 1 <= |p| <= RNS_MTU }

  /** Those of `ps` a receiver may be given: not empty, not over the MTU. */
  function Deliverable(ps: seq<seq<byte>>): seq<seq<byte>> {
    if ps == [] then []
    else Deliverable(Init(ps)) + if Fits(Last(ps)) then [Last(ps)] else []
  }

  function CountOver(ps: seq<seq<byte>>): nat {
    if ps == [] then 0
    else CountOver(Init(ps)) + if |Last(ps)| > RNS_MTU then 1 else 0
  }

  function Payloads(segs: seq<seq<byte>>): (ps: seq<seq<byte>>)
    ensures |ps| == |segs|
    ensures forall i :: 0 <= i < |segs| ==> ps[i] == Unescape(segs[i])
  {
    if segs == [] then [] else Payloads(Init(segs)) + [Unescape(Last(segs))]
  }

  /** The frames in a stream, and how many of its segments were too long. */
  function Frames(s: seq<byte>): seq<seq<byte>> { Deliverable(Payloads(Closed(s))) }
  function Oversized(s: seq<byte>): nat { CountOver(Payloads(Closed(s))) }

  /** What stands on the wire for a byte: section 4.2 of RFC 1662, in numbers. */
  function OnWire(b: byte): seq<byte> {
    if b == 0x7E then [0x7D, 0x5E] else if b == 0x7D then [0x7D, 0x5D] else [b]
  }

  function AllOnWire(p: seq<byte>): seq<seq<byte>> {
    if p == [] then [] else AllOnWire(Init(p)) + [OnWire(Last(p))]
  }

  /** A framed packet, byte by byte, and a stuffed byte read back. */
  lemma {:induction false} FramedOnWire(p: seq<byte>)
    ensures Framed(p) == [0x7E] + Concat(AllOnWire(p)) + [0x7E]
  {
    if p != [] {
      FramedOnWire(Init(p));
      StuffedOnWire(Init(p));
      StuffedOnWire(p);
    }
  }

  lemma {:induction false} StuffedOnWire(p: seq<byte>)
    ensures Stuff(p) == Concat(AllOnWire(p))
  {
    if p != [] {
      StuffedOnWire(Init(p));
      ConcatSnoc(AllOnWire(Init(p)), OnWire(Last(p)));
    }
  }

  /** What an escape makes of the byte after it, whatever the byte: 0x20 is turned
      over, so that 5E is a flag again and 5D an escape. */
  lemma EscapeTurnsBitFive(seg: seq<byte>, c: byte)
    requires c != ESC && (seg != [] ==> Last(seg) != ESC)
    ensures Unescape(seg + [0x7D, c]) == Unescape(seg) + [if c / 32 % 2 == 1 then c - 0x20 else c + 0x20]
    ensures c == 0x5E ==> Unescape(seg + [0x7D, c]) == Unescape(seg) + [0x7E]
    ensures c == 0x5D ==> Unescape(seg + [0x7D, c]) == Unescape(seg) + [0x7D]
  {
    var flipped := Flip(c);
    assert flipped == if c / 32 % 2 == 1 then c - 0x20 else c + 0x20;
    assert c == 0x5E ==> flipped == 0x7E;
    assert c == 0x5D ==> flipped == 0x7D;
    hide Flip;
    var s := seg + [0x7D, c];
    assert Init(s) == seg + [0x7D] && Last(s) == c;
    assert Init(seg + [0x7D]) == seg && Last(seg + [0x7D]) == ESC;
    assert Unescape(seg + [0x7D]) == Unescape(seg);
  }

  // ---------------------------------------------------------------------
  // The segments are the only way to cut a stream at its flags
  // ---------------------------------------------------------------------

  ghost predicate FlagFree(s: seq<byte>) { FLAG !in s }

  function JoinFlags(segs: seq<seq<byte>>): seq<byte> {
    if segs == [] then [] else JoinFlags(Init(segs)) + [FLAG] + Last(segs)
  }

  lemma {:induction false} FlagFreeTail(s: seq<byte>, x: seq<byte>)
    requires FlagFree(x)
    ensures Closed(s + x) == Closed(s)
    ensures FLAG in s ==> FLAG in s + x && Open(s + x) == Open(s) + x
    ensures FLAG !in s ==> FLAG !in s + x
  {
    if x == [] {
      assert s + x == s;
    } else {
      FlagFreeTail(s, Init(x));
      assert Init(s + x) == s + Init(x);
      assert Last(s + x) == Last(x);
      assert Last(x) != FLAG;
      assert x == Init(x) + [Last(x)];
    }
  }

  lemma ClosedByFlag(s: seq<byte>)
    ensures FLAG in s + [FLAG] && Open(s + [FLAG]) == []
    ensures Closed(s + [FLAG]) == Closed(s) + if FLAG in s then [Open(s)] else []
  {
    assert Init(s + [FLAG]) == s && Last(s + [FLAG]) == FLAG;
  }

  /** Every way of writing a stream as lead, flag-led segments and an open tail
      with no flag inside any of them is the way `Closed` and `Open` read it. */
  lemma {:induction false} SegmentsUnique(lead: seq<byte>, segs: seq<seq<byte>>, open: seq<byte>)
    requires FlagFree(lead) && FlagFree(open)
    requires forall i :: 0 <= i < |segs| ==> FlagFree(segs[i])
    ensures var s := lead + JoinFlags(segs) + [FLAG] + open;
      FLAG in s && Closed(s) == segs && Open(s) == open
  {
    hide Closed, Open;
    var pre := lead + JoinFlags(segs);
    if segs == [] {
      assert pre == lead;
      NoFlagNoSegments(lead);
    } else {
      var before, x := Init(segs), Last(segs);
      SegmentsUnique(lead, before, x);
      assert pre == lead + JoinFlags(before) + [FLAG] + x;
      assert segs == before + [x];
    }
    ClosedByFlag(pre);
    FlagFreeTail(pre + [FLAG], open);
    assert [] + open == open;
  }

  /** ... and every stream that has a flag can be written that way. */
  lemma {:induction false} SegmentsExist(s: seq<byte>) returns (lead: seq<byte>)
    requires FLAG in s
    ensures FlagFree(lead) && FlagFree(Open(s))
    ensures forall x :: x in Closed(s) ==> FlagFree(x)
    ensures s == lead + JoinFlags(Closed(s)) + [FLAG] + Open(s)
  {
    hide JoinFlags;
    var i, l := Init(s), Last(s);
    assert s == i + [l];
    if FLAG !in i {
      lead := i;
      NoFlagNoSegments(i);
      ClosedByFlag(i);
      JoinFlagsNone();
      assert lead + [] == lead;
    } else {
      lead := SegmentsExist(i);
      if l == FLAG {
        ClosedByFlag(i);
        JoinFlagsSnoc(Closed(i), Open(i));
        assert lead + (JoinFlags(Closed(i)) + [FLAG] + Open(i)) == i;
      } else {
        FlagFreeTail(i, [l]);
      }
    }
  }

  lemma JoinFlagsNone()
    ensures JoinFlags([]) == []
  {
  }

  lemma JoinFlagsSnoc(segs: seq<seq<byte>>, x: seq<byte>)
    ensures JoinFlags(segs + [x]) == JoinFlags(segs) + [FLAG] + x
  {
    assert Init(segs + [x]) == segs;
  }

  lemma {:induction false} NoFlagNoSegments(s: seq<byte>)
    requires FLAG !in s
    ensures Closed(s) == []
  {
    if s != [] { NoFlagNoSegments(Init(s)); }
  }

  // ---------------------------------------------------------------------
  // Stuffing: no interior flag, bounded size, undone by Unescape
  // ---------------------------------------------------------------------

  lemma {:induction false} StuffIsSafe(p: seq<byte>)
    ensures FlagFree(Stuff(p))
    ensures |p| <= |Stuff(p)| <= 2 * |p|
    ensures Stuff(p) != [] ==> Last(Stuff(p)) != ESC
  {
    if p != [] { StuffIsSafe(Init(p)); }
  }

  lemma UnescapeSnoc(s: seq<byte>, b: byte)
    ensures Unescape(s + [b]) ==
      if b == ESC then Unescape(s)
      else if s != [] && Last(s) == ESC then Unescape(s) + [Flip(b)]
      else Unescape(s) + [b]
  {
    assert Init(s + [b]) == s && Last(s + [b]) == b;
  }

  lemma UnescapeEscaped(s: seq<byte>, b: byte)
    requires s != [] ==> Last(s) != ESC
    ensures Unescape(s + EscapedByte(b)) == Unescape(s) + [b]
  {
    hide Unescape;
    if b == FLAG || b == ESC {
      assert Flip(Flip(b)) == b && Flip(b) != ESC;
      hide Flip;
      UnescapeSnoc(s, ESC);
      UnescapeSnoc(s + [ESC], Flip(b));
      assert s + EscapedByte(b) == s + [ESC] + [Flip(b)];
    } else {
      UnescapeSnoc(s, b);
    }
  }

  lemma {:induction false} UnescapeStuff(p: seq<byte>)
    ensures Unescape(Stuff(p)) == p
  {
    if p != [] {
      UnescapeStuff(Init(p));
      StuffIsSafe(Init(p));
      UnescapeEscaped(Stuff(Init(p)), Last(p));
    }
  }

  /** A framed packet is at most 2 + 2n bytes, and its only flags are its ends. */
  lemma FramedShape(p: seq<byte>)
    ensures |p| + 2 <= |Framed(p)| <= FrameCapacity(|p|)
    ensures forall i :: 0 <= i < |Framed(p)| ==> (Framed(p)[i] == FLAG <==> i == 0 || i == |Framed(p)| - 1)
  {
    StuffIsSafe(p);
  }

  /** The worst case is met: no smaller capacity is enough for every packet. */
  lemma {:induction false} CapacityIsMet(n: nat) returns (p: seq<byte>)
    ensures |p| == n && |Framed(p)| == FrameCapacity(n) == 2 + 2 * n
  {
    if n == 0 {
      p := [];
    } else {
      p := CapacityIsMet(n - 1);
      assert Init(p + [FLAG]) == p;
      p := p + [FLAG];
    }
  }

  // ---------------------------------------------------------------------
  // Round trip and resynchronisation
  // ---------------------------------------------------------------------

  /** What the bytes received so far leave behind when the next flag arrives. */
  function Stray(h: seq<byte>): (r: seq<seq<byte>>) {
    if FLAG in h then [Unescape(Open(h))] else []
  }

  lemma DeliverableOne(p: seq<byte>)
    ensures Deliverable([p]) == if Fits(p) then [p] else []
    ensures CountOver([p]) == if |p| > RNS_MTU then 1 else 0
  {
    assert Init([p]) == [];
  }

  lemma DeliverableNone()
    ensures Deliverable([]) == [] && CountOver([]) == 0
  {
  }

  lemma {:induction false} DeliverableConcat(a: seq<seq<byte>>, b: seq<seq<byte>>)
    ensures Deliverable(a + b) == Deliverable(a) + Deliverable(b)
    ensures CountOver(a + b) == CountOver(a) + CountOver(b)
  {
    if b == [] {
      assert a + b == a;
    } else {
      DeliverableConcat(a, Init(b));
      assert Init(a + b) == a + Init(b);
    }
  }

  lemma PayloadsConcat(a: seq<seq<byte>>, b: seq<seq<byte>>)
    ensures Payloads(a + b) == Payloads(a) + Payloads(b)
  {
  }

  lemma FeedFlag(h: seq<byte>)
    ensures Frames(h + [FLAG]) == Frames(h) + Deliverable(Stray(h))
    ensures Oversized(h + [FLAG]) == Oversized(h) + CountOver(Stray(h))
  {
    ClosedByFlag(h);
    var tail := if FLAG in h then [Open(h)] else [];
    PayloadsConcat(Closed(h), tail);
    assert Payloads(tail) == Stray(h);
    DeliverableConcat(Payloads(Closed(h)), Stray(h));
  }

  /** A flag, then bytes with no flag: nothing more is decided until the next. */
  lemma FeedOpened(h: seq<byte>, x: seq<byte>)
    requires FlagFree(x)
    ensures Frames(h + [FLAG] + x) == Frames(h) + Deliverable(Stray(h))
    ensures Oversized(h + [FLAG] + x) == Oversized(h) + CountOver(Stray(h))
    ensures Stray(h + [FLAG] + x) == [Unescape(x)]
  {
    FeedFlag(h);
    ClosedByFlag(h);
    FlagFreeTail(h + [FLAG], x);
    assert [] + x == x;
  }

  lemma UnescapeNothing()
    ensures Unescape([]) == []
  {
  }

  lemma FeedFramed(h: seq<byte>, p: seq<byte>)
    ensures Stray(h + Framed(p)) == [[]]
    ensures Frames(h + Framed(p)) == Frames(h) + Deliverable(Stray(h)) + Deliverable([p])
    ensures Oversized(h + Framed(p)) == Oversized(h) + CountOver(Stray(h)) + CountOver([p])
  {
    hide Closed, Open, Frames, Oversized, Deliverable, CountOver, Stuff, Unescape;
    StuffIsSafe(p);
    UnescapeStuff(p);
    UnescapeNothing();
    var g := h + [FLAG] + Stuff(p);
    assert h + Framed(p) == g + [FLAG];
    FeedOpened(h, Stuff(p));
    FeedFlag(g);
    ClosedByFlag(g);
  }

  lemma FramedAllSnoc(h: seq<byte>, before: seq<seq<byte>>, p: seq<byte>)
    ensures FramedAll(before + [p]) == FramedAll(before) + Framed(p)
    ensures h + FramedAll(before + [p]) == h + FramedAll(before) + Framed(p)
  {
    assert Init(before + [p]) == before;
  }

  /** Whatever a deframer has swallowed before — a banner, half a frame, a
      truncated escape — the framing of a list of packets adds at most the one
      frame that was left open, and then exactly the deliverable packets in
      order; every packet over the MTU adds one to the count. */
  lemma {:induction false} Resynchronises(h: seq<byte>, ps: seq<seq<byte>>)
    ensures |Stray(h)| <= 1
    ensures ps != [] ==> Stray(h + FramedAll(ps)) == [[]]
    ensures ps != [] ==> Frames(h + FramedAll(ps)) == Frames(h) + Deliverable(Stray(h)) + Deliverable(ps)
    ensures ps != [] ==> Oversized(h + FramedAll(ps)) == Oversized(h) + CountOver(Stray(h)) + CountOver(ps)
  {
    hide Closed, Open, Framed, Frames, Oversized, Deliverable, CountOver;
    if ps != [] {
      var before, p := Init(ps), Last(ps);
      assert ps == before + [p];
      FramedAllSnoc(h, before, p);
      FeedFramed(h + FramedAll(before), p);
      DeliverableConcat(before, [p]);
      if before == [] {
        assert h + FramedAll(before) == h;
        DeliverableNone();
      } else {
        Resynchronises(h, before);
        DeliverableOne([]);
      }
    }
  }

  /** The plain round trip: a fresh receiver gets back every packet that fits. */
  lemma RoundTrip(ps: seq<seq<byte>>)
    ensures Frames(FramedAll(ps)) == Deliverable(ps)
    ensures Oversized(FramedAll(ps)) == CountOver(ps)
  {
    Resynchronises([], ps);
    assert [] + FramedAll(ps) == FramedAll(ps);
  }

  lemma FitsIsNotOver(p: seq<byte>)
    requires Fits(p)
    ensures |p| <= RNS_MTU
  {
  }

  lemma {:induction false} AllFitDeliverable(ps: seq<seq<byte>>)
    requires forall p :: p in ps ==> Fits(p)
    ensures Deliverable(ps) == ps && CountOver(ps) == 0
  {
    hide Fits, RNS_MTU;
    if ps != [] {
      var before, p := Init(ps), Last(ps);
      assert ps == before + [p];
      AllFitDeliverable(before);
      assert p in ps;
      FitsIsNotOver(p);
    }
  }

  // ---------------------------------------------------------------------
  // The framer
  // ---------------------------------------------------------------------

  lemma StuffStep(p: seq<byte>, i: nat)
    requires i < |p|
    ensures Stuff(p[..i + 1]) == Stuff(p[..i]) + EscapedByte(p[i])
  {
    assert Init(p[..i + 1]) == p[..i];
  }

  /** Frames `input` into `out`; answers 0, and writes nothing, exactly when
      the room offered is below the worst case. */
  method Frame(input: seq<byte>, out: array<byte>, outCap: nat) returns (n: nat)
    requires outCap <= out.Length
    modifies out
    ensures n == 0 <==> outCap < 2 + 2 * |input|
    ensures n == 0 ==> out[..] == old(out[..])
    ensures n != 0 ==> 2 <= n <= outCap && out[..n] == Framed(input)
    ensures n != 0 ==> forall k :: n <= k < out.Length ==> out[k] == old(out[k])
  {
    if outCap < FrameCapacity(|input|) { return 0; }
    assert Stuff([]) == [];
    hide Stuff, Flip;
    var o := 0;
    ghost var w := [FLAG];
    out[o] := FLAG; o := o + 1;
    var i := 0;
    while i < |input|
      invariant 0 <= i <= |input|
      invariant 1 <= o <= 1 + 2 * i && o == |w|
      invariant w == [FLAG] + Stuff(input[..i])
      invariant forall k :: 0 <= k < out.Length ==> out[k] == if k < o then w[k] else old(out[k])
    {
      var b := input[i];
      StuffStep(input, i);
      w := w + EscapedByte(b);
      assert w == [FLAG] + (Stuff(input[..i]) + EscapedByte(b));
      if b == FLAG || b == ESC {
        out[o] := ESC; o := o + 1;
        out[o] := Flip(b); o := o + 1;
      } else {
        out[o] := b; o := o + 1;
      }
      i := i + 1;
    }
    assert input[..i] == input;
    w := w + [FLAG];
    out[o] := FLAG; o := o + 1;
    assert out[..o] == w;
    return o;
  }

  // ---------------------------------------------------------------------
  // The deframer
  // ---------------------------------------------------------------------

  lemma FlagDecides(h: seq<byte>)
    ensures FLAG in h + [FLAG] && Open(h + [FLAG]) == [] && Unescape([]) == []
    ensures FLAG !in h ==> Frames(h + [FLAG]) == Frames(h) && Oversized(h + [FLAG]) == Oversized(h)
    ensures FLAG in h ==>
      var p := Unescape(Open(h));
      && Frames(h + [FLAG]) == Frames(h) + (if Fits(p) then [p] else [])
      && Oversized(h + [FLAG]) == Oversized(h) + if |p| > RNS_MTU then 1 else 0
  {
    FeedFlag(h);
    ClosedByFlag(h);
    if FLAG in h { DeliverableOne(Unescape(Open(h))); }
  }

  lemma ByteDecides(h: seq<byte>, c: byte)
    requires c != FLAG
    ensures Frames(h + [c]) == Frames(h) && Oversized(h + [c]) == Oversized(h)
    ensures (FLAG in h + [c]) == (FLAG in h)
    ensures FLAG in h ==>
      var o := Open(h);
      var p := Unescape(o);
      && Open(h + [c]) == o + [c]
      && Unescape(o + [c]) ==
         if c == ESC then p else if o != [] && Last(o) == ESC then p + [Flip(c)] else p + [c]
  {
    FlagFreeTail(h, [c]);
    if FLAG in h { UnescapeSnoc(Open(h), c); }
  }

  lemma NothingFed()
    ensures Oversized([]) == 0 && Frames([]) == []
  {
  }

  /** What a deframer that has swallowed `h` must remember, and no more: the
      open segment undone so far, and whether an escape is pending. */
  ghost predicate Remembers(h: seq<byte>, inFrame: bool, escaped: bool, overflow: bool, held: seq<byte>) {
    && inFrame == (FLAG in h)
    && (!inFrame ==> held == [] && !escaped && !overflow)
    && (inFrame ==>
      var open := Open(h);
      && escaped == (open != [] && Last(open) == ESC)
      && overflow == (|Unescape(open)| > RNS_MTU)
      && if overflow then |held| == RNS_MTU else held == Unescape(open))
  }

  lemma RemembersFlag(h: seq<byte>, inFrame: bool, escaped: bool, overflow: bool, held: seq<byte>)
    requires Remembers(h, inFrame, escaped, overflow, held)
    ensures Remembers(h + [FLAG], true, false, false, [])
    ensures Frames(h + [FLAG]) == Frames(h) + if inFrame && |held| > 0 && !overflow then [held] else []
    ensures Oversized(h + [FLAG]) == Oversized(h) + if overflow then 1 else 0
  {
    hide Frames, Oversized, Open, Unescape;
    FlagDecides(h);
  }

  lemma RemembersByte(h: seq<byte>, inFrame: bool, escaped: bool, overflow: bool, held: seq<byte>, c: byte)
    requires Remembers(h, inFrame, escaped, overflow, held) && c != FLAG
    ensures Frames(h + [c]) == Frames(h) && Oversized(h + [c]) == Oversized(h)
    ensures !inFrame ==> Remembers(h + [c], inFrame, escaped, overflow, held)
    ensures inFrame && c == ESC ==> Remembers(h + [c], inFrame, true, overflow, held)
    ensures inFrame && c != ESC && |held| == RNS_MTU ==> Remembers(h + [c], inFrame, false, true, held)
    ensures inFrame && c != ESC && |held| < RNS_MTU ==>
      Remembers(h + [c], inFrame, false, overflow, held + [if escaped then Flip(c) else c])
  {
    hide Frames, Oversized, Open, Unescape, Flip;
    ByteDecides(h, c);
  }

  /** `fed` is every byte since the last reset; `overBefore` is what `dropped`
      would have been, unbounded, at that reset. */
  class Deframer {
    const buf: array<byte>
    var len: nat
    var dropped: nat
    var inFrame: bool
    var escaped: bool
    var overflow: bool
    ghost var fed: seq<byte>
    ghost var overBefore: nat

    ghost predicate Valid()
      reads this, buf
    {
      && buf.Length == RNS_MTU && len <= RNS_MTU
      && dropped == Wrap(overBefore + Oversized(fed))
      && Remembers(fed, inFrame, escaped, overflow, buf[..len])
    }

    constructor ()
      ensures Valid() && fresh(buf) && fed == [] && overBefore == 0
    {
      buf := new byte[RNS_MTU];
      len, dropped := 0, 0;
      inFrame, escaped, overflow := false, false, false;
      fed, overBefore := [], 0;
    }

    /** One byte. The sink is called at most once; what it is handed is `got`. */
    method Feed(c: byte) returns (got: Option<seq<byte>>)
      requires Valid()
      modifies this, buf
      ensures Valid()
      ensures fed == old(fed) + [c] && overBefore == old(overBefore)
      ensures Frames(fed) == Frames(old(fed)) + if got.Some? then [got.value] else []
      ensures got.Some? ==> c == FLAG
    {
      hide Remembers, Frames, Oversized, Flip;
      if c == FLAG {
        got := Close();
      } else {
        Absorb(c);
        got := None;
      }
    }

    /** The part of `Feed` for a flag: what was open is a frame, or nothing. */
    method Close() returns (got: Option<seq<byte>>)
      requires Valid()
      modifies this
      ensures Valid()
      ensures fed == old(fed) + [FLAG] && overBefore == old(overBefore)
      ensures Frames(fed) == Frames(old(fed)) + if got.Some? then [got.value] else []
    {
      hide Remembers, Frames, Oversized, Flip;
      RemembersFlag(fed, inFrame, escaped, overflow, buf[..len]);
      got := if inFrame && len > 0 && !overflow then Some(buf[..len]) else None;
      if overflow { dropped := Wrap(dropped + 1); }
      fed := fed + [FLAG];
      inFrame := true;
      escaped := false;
      overflow := false;
      len := 0;
      assert buf[..len] == [];
    }

    /** The part of `Feed` for any other byte. */
    method Absorb(c: byte)
      requires Valid() && c != FLAG
      modifies this, buf
      ensures Valid()
      ensures fed == old(fed) + [c] && overBefore == old(overBefore) && Frames(fed) == Frames(old(fed))
    {
      hide Remembers, Frames, Oversized, Flip;
      ghost var held := buf[..len];
      RemembersByte(fed, inFrame, escaped, overflow, held, c);
      fed := fed + [c];
      if inFrame {
        if c == ESC {
          escaped := true;
        } else {
          var b := if escaped then Flip(c) else c;
          escaped := false;
          if len >= buf.Length {
            overflow := true;
          } else {
            buf[len] := b;
            len := len + 1;
            assert buf[..len] == held + [b];
          }
        }
      }
    }

    /** A chunk of any length, a byte at a time, as both readers do. However a
        stream is cut into chunks, what comes out is the stream's frames. */
    method FeedChunk(chunk: seq<byte>) returns (got: seq<seq<byte>>)
      requires Valid()
      modifies this, buf
      ensures Valid()
      ensures fed == old(fed) + chunk && overBefore == old(overBefore)
      ensures Frames(fed) == Frames(old(fed)) + got
    {
      hide Remembers, Frames, Oversized;
      got := [];
      var i := 0;
      while i < |chunk|
        invariant 0 <= i <= |chunk|
        invariant Valid() && overBefore == old(overBefore)
        invariant fed == old(fed) + chunk[..i]
        invariant Frames(fed) == Frames(old(fed)) + got
      {
        var r := Feed(chunk[i]);
        assert chunk[..i + 1] == chunk[..i] + [chunk[i]];
        if r.Some? { got := got + [r.value]; }
        i := i + 1;
      }
      assert chunk[..i] == chunk;
    }

    method Reset()
      requires Valid()
      modifies this
      ensures Valid() && fed == []
      ensures dropped == old(dropped)
      ensures overBefore == old(overBefore + Oversized(fed))
    {
      hide Oversized, Open, Unescape;
      NothingFed();
      overBefore := overBefore + Oversized(fed);
      inFrame := false; escaped := false; overflow := false; len := 0;
      fed := [];
    }

    /** Segments over the MTU since this deframer was made, in a 32-bit word. */
    method OversizedCount() returns (n: nat)
      requires Valid()
      ensures n == Wrap(overBefore + Oversized(fed))
    {
      n := dropped;
    }
  }
}
