/** The transmit queue of src/net/UartTxQueue.h: whole frames of any length,
    packed end to end with wrap-around into an arena the caller lends.

    The abstract queue is `contents`, a sequence of byte sequences. `Packed` and
    `Tiled` say how the arena and the slot table hold it; every method is proved
    against `contents`, and the counters against totals that never wrap. */
module TxQueues {
  import opened Bytes

  /** Where one frame lies; `len` is a 16-bit field, `off` a 32-bit one. */
  datatype Slot = Slot(off: nat, len: nat)

  const MAX_LEN: nat := 0xFFFF
  /** The widths of the slot index and of `off + len` in the source. */
  const MAX_SLOTS: nat := 0xFFFF
  const MAX_BYTES: nat := 0xFFFF_0000

  datatype Counters = Counters(
    framesQueued: nat, framesSent: nat, framesDropped: nat,
    bytesQueued: nat, bytesSent: nat, depth: nat, depthHighWater: nat)

  /** The same figures without wrap, and what became of frames not sent. */
  datatype Totals = Totals(
    queued: nat, sent: nat, refused: nat, tooBig: nat, discarded: nat,
    bytesQueued: nat, bytesSent: nat, bytesTooBig: nat, bytesDiscarded: nat)

  function Up(counter: nat, more: nat): nat { Wrap(counter + more) }

  lemma UpFollows(total: nat, more: nat)
    ensures Up(Wrap(total), more) == Wrap(total + more)
  {
  }

  /** Every frame accepted was sent, waits, was too big for the buffer it was
      popped into, or was thrown away with the memory; likewise every byte. */
  ghost predicate Balanced(c: Counters, t: Totals, waiting: seq<seq<byte>>) {
    && t.queued == t.sent + |waiting| + t.tooBig + t.discarded
    && t.bytesQueued == t.bytesSent + |Concat(waiting)| + t.bytesTooBig + t.bytesDiscarded
    && c.framesQueued == Wrap(t.queued)
    && c.framesSent == Wrap(t.sent)
    && c.framesDropped == Wrap(t.refused + t.tooBig)
    && c.bytesQueued == Wrap(t.bytesQueued)
    && c.bytesSent == Wrap(t.bytesSent)
  }

  lemma BalancedMoves(c: Counters, t: Totals, w: seq<seq<byte>>, f: seq<byte>, depth: nat, high: nat)
    requires Balanced(c, t, w)
    ensures Balanced(
      c.(framesQueued := Up(c.framesQueued, 1), bytesQueued := Up(c.bytesQueued, |f|),
         depth := depth, depthHighWater := high),
      t.(queued := t.queued + 1, bytesQueued := t.bytesQueued + |f|), w + [f])
    ensures Balanced(c.(framesDropped := Up(c.framesDropped, 1)), t.(refused := t.refused + 1), w)
  {
    UpFollows(t.queued, 1);
    UpFollows(t.bytesQueued, |f|);
    UpFollows(t.refused + t.tooBig, 1);
    ConcatSnoc(w, f);
  }

  lemma BalancedLoss(c: Counters, t: Totals, w: seq<seq<byte>>, depth: nat)
    requires Balanced(c, t, w)
    ensures Balanced(c.(depth := depth),
      t.(discarded := t.discarded + |w|, bytesDiscarded := t.bytesDiscarded + |Concat(w)|), [])
  {
  }

  lemma BalancedPop(c: Counters, t: Totals, w: seq<seq<byte>>, depth: nat)
    requires Balanced(c, t, w) && w != []
    ensures Balanced(
      c.(framesSent := Up(c.framesSent, 1), bytesSent := Up(c.bytesSent, |w[0]|), depth := depth),
      t.(sent := t.sent + 1, bytesSent := t.bytesSent + |w[0]|), w[1..])
    ensures Balanced(
      c.(framesDropped := Up(c.framesDropped, 1), depth := depth),
      t.(tooBig := t.tooBig + 1, bytesTooBig := t.bytesTooBig + |w[0]|), w[1..])
  {
    UpFollows(t.sent, 1);
    UpFollows(t.bytesSent, |w[0]|);
    UpFollows(t.refused + t.tooBig, 1);
    ConcatCons(w[0], w[1..]);
    assert [w[0]] + w[1..] == w;
  }

  // ---------------------------------------------------------------------
  // A ring of n places, read from b onwards
  // ---------------------------------------------------------------------

  function At(b: nat, k: nat, n: nat): nat
    requires b < n && k <= n
  {
    if b + k < n then b + k else b + k - n
  }

  /** Both operands of the source's `%` are unsigned. */
  lemma RemIsAt(b: nat, k: nat, n: nat)
    requires b < n && k <= n
    ensures Rem(b + k, n) == At(b, k, n) < n
  {
    hide Rem, Quot;
    OnceAround(n);
    if b + k < n { Divides(n, 0, b + k); } else { Divides(n, 1, b + k - n); }
  }

  lemma OnceAround(n: nat)
    ensures Times(0, n) == 0 && Times(1, n) == n
  {
  }

  lemma AtStep(b: nat, k: nat, n: nat)
    requires b < n && 1 <= k <= n
    ensures At(b, 1, n) < n && At(b, k, n) < n
    ensures At(At(b, 1, n), k - 1, n) == At(b, k, n)
    ensures At(At(b, k, n), n - 1, n) == At(b, k - 1, n)
  {
  }

  /** The arena, read from `base`, holds `flat`. */
  ghost predicate Packed(arena: seq<byte>, cap: nat, base: nat, flat: seq<byte>) {
    && base < cap <= |arena| && |flat| <= cap
    && forall k :: 0 <= k < |flat| ==> arena[At(base, k, cap)] == flat[k]
  }

  ghost function Before(frames: seq<seq<byte>>, i: nat): nat
    requires i <= |frames|
  {
    |Concat(frames[..i])|
  }

  ghost predicate Sized(frames: seq<seq<byte>>) {
    forall f :: f in frames ==> 1 <= |f| <= MAX_LEN
  }

  /** The live slots, read from `head`, lie end to end from `base`: slot i
      starts where slot i - 1 stops. */
  ghost predicate Tiled(slots: seq<Slot>, n: nat, head: nat, cap: nat, base: nat, frames: seq<seq<byte>>) {
    && head < n <= |slots| && |frames| <= n && base < cap && |Concat(frames)| <= cap
    && forall i :: 0 <= i < |frames| ==>
         && Before(frames, i) <= cap
         && slots[At(head, i, n)] == Slot(At(base, Before(frames, i), cap), |frames[i]|)
  }

  lemma SizedTail(frames: seq<seq<byte>>)
    requires Sized(frames) && frames != []
    ensures Sized(frames[1..])
  {
  }

  lemma SizedPush(frames: seq<seq<byte>>, f: seq<byte>)
    requires Sized(frames) && 1 <= |f| <= MAX_LEN
    ensures Sized(frames + [f])
  {
  }

  /** What a wrapped write of `src` at `off` leaves at place i. */
  ghost function Written(arena: seq<byte>, cap: nat, off: nat, src: seq<byte>, i: nat): byte
    requires i < |arena|
  {
    if off <= i < off + |src| && i < cap then src[i - off]
    else if i + cap < off + |src| then
      if i + cap >= off then src[i + cap - off] else arena[i]
    else arena[i]
  }

  lemma {:induction false} BeforeGrows(frames: seq<seq<byte>>, i: nat)
    requires Sized(frames) && i < |frames|
    ensures Before(frames, i) + |frames[i]| <= |Concat(frames)|
    ensures Before(frames, i + 1) == Before(frames, i) + |frames[i]|
  {
    ConcatSnoc(frames[..i], frames[i]);
    assert frames[..i + 1] == frames[..i] + [frames[i]];
    if i + 1 == |frames| {
      assert frames[..i + 1] == frames;
    } else {
      BeforeGrows(Init(frames), i);
      assert Init(frames)[..i] == frames[..i];
    }
  }

  lemma BeforeZero(frames: seq<seq<byte>>)
    ensures Before(frames, 0) == 0
  {
  }

  lemma FlatUnique(frames: seq<seq<byte>>, f: seq<byte>)
    ensures Concat(frames + [f]) == Concat(frames) + f
    ensures |Concat(frames + [f])| == |Concat(frames)| + |f|
    ensures Concat<byte>([]) == []
  {
    ConcatSnoc(frames, f);
  }

  // ---------------------------------------------------------------------
  // What a push and a pop do to the arena and to the table
  // ---------------------------------------------------------------------

  /** A wrapped write behind the live bytes damages none of them. */
  lemma PackedPush(before: seq<byte>, after: seq<byte>, cap: nat, base: nat, flat: seq<byte>, f: seq<byte>)
    requires Packed(before, cap, base, flat) && |after| == |before|
    requires f != [] && |flat| + |f| <= cap
    requires forall i :: 0 <= i < |after| ==> after[i] == Written(before, cap, At(base, |flat|, cap), f, i)
    ensures Packed(after, cap, base, flat + f)
  {
    var whole := flat + f;
    forall k | 0 <= k < |whole|
      ensures after[At(base, k, cap)] == whole[k]
    {
      assert 0 <= At(base, k, cap) < |after|;
    }
  }

  lemma PackedPop(arena: seq<byte>, cap: nat, base: nat, f: seq<byte>, rest: seq<byte>)
    requires Packed(arena, cap, base, f + rest)
    ensures forall k :: 0 <= k < |f| ==> arena[At(base, k, cap)] == f[k]
    ensures Packed(arena, cap, At(base, |f|, cap), rest)
  {
    var whole := f + rest;
    forall k | 0 <= k < |f|
      ensures arena[At(base, k, cap)] == f[k]
    {
      assert whole[k] == f[k];
    }
    forall k | 0 <= k < |rest|
      ensures arena[At(At(base, |f|, cap), k, cap)] == rest[k]
    {
      assert whole[|f| + k] == rest[k];
    }
  }

  lemma BeforePrefix(frames: seq<seq<byte>>, f: seq<byte>, i: nat)
    requires i <= |frames|
    ensures Before(frames + [f], i) == Before(frames, i)
  {
    assert (frames + [f])[..i] == frames[..i];
  }

  lemma TiledPush(slots: seq<Slot>, n: nat, head: nat, cap: nat, base: nat, frames: seq<seq<byte>>, f: seq<byte>)
    requires Tiled(slots, n, head, cap, base, frames) && |frames| < n
    requires |Concat(frames)| + |f| <= cap
    ensures Tiled(slots[At(head, |frames|, n) := Slot(At(base, |Concat(frames)|, cap), |f|)],
                  n, head, cap, base, frames + [f])
  {
    var g := frames + [f];
    var s := slots[At(head, |frames|, n) := Slot(At(base, |Concat(frames)|, cap), |f|)];
    FlatUnique(frames, f);
    forall i | 0 <= i < |g|
      ensures Before(g, i) <= cap && s[At(head, i, n)] == Slot(At(base, Before(g, i), cap), |g[i]|)
    {
      BeforePrefix(frames, f, i);
      if i == |frames| { assert frames[..i] == frames; }
    }
  }

  lemma BeforeTail(frames: seq<seq<byte>>, i: nat)
    requires frames != [] && i < |frames|
    ensures Before(frames, i + 1) == |frames[0]| + Before(frames[1..], i)
  {
    ConcatCons(frames[0], frames[1..][..i]);
    assert frames[..i + 1] == [frames[0]] + frames[1..][..i];
  }

  lemma TiledPop(slots: seq<Slot>, n: nat, head: nat, cap: nat, base: nat, frames: seq<seq<byte>>)
    requires Tiled(slots, n, head, cap, base, frames) && frames != [] && Sized(frames)
    ensures slots[head] == Slot(base, |frames[0]|)
    ensures |frames[0]| <= cap
    ensures Concat(frames) == frames[0] + Concat(frames[1..])
    ensures Tiled(slots, n, At(head, 1, n), cap, At(base, |frames[0]|, cap), frames[1..])
  {
    hide Concat, Before;
    ConcatCons(frames[0], frames[1..]);
    assert [frames[0]] + frames[1..] == frames;
    BeforeZero(frames);
    assert At(head, 0, n) == head && At(base, 0, cap) == base;
    assert slots[At(head, 0, n)] == Slot(At(base, 0, cap), |frames[0]|);
    var rest := frames[1..];
    forall i | 0 <= i < |rest|
      ensures Before(rest, i) <= cap
      ensures slots[At(At(head, 1, n), i, n)] == Slot(At(At(base, |frames[0]|, cap), Before(rest, i), cap), |rest[i]|)
    {
      BeforeTail(frames, i);
      BeforeGrows(frames, i + 1);
      assert At(At(head, 1, n), i, n) == At(head, i + 1, n);
    }
  }

  /** The next frame starts where the last live one stops. */
  lemma TiledEnd(slots: seq<Slot>, n: nat, head: nat, cap: nat, base: nat, frames: seq<seq<byte>>)
    requires Tiled(slots, n, head, cap, base, frames) && frames != [] && Sized(frames)
    requires |Concat(frames)| < cap
    ensures var last := slots[At(head, |frames| - 1, n)];
      last.off < cap && last.len <= MAX_LEN && last.len <= cap
      && At(last.off, last.len, cap) == At(base, |Concat(frames)|, cap)
  {
    var i := |frames| - 1;
    BeforeGrows(frames, i);
    assert frames[..i + 1] == frames;
  }

  lemma {:induction false} BeforeOrdered(frames: seq<seq<byte>>, i: nat, j: nat)
    requires Sized(frames) && i < j < |frames|
    ensures Before(frames, i) + |frames[i]| <= Before(frames, j)
    decreases j - i
  {
    BeforeGrows(frames, i);
    if i + 1 < j {
      BeforeOrdered(frames, i + 1, j);
    }
  }

  /** No two live frames share a place in the arena. */
  lemma TilesDisjoint(slots: seq<Slot>, n: nat, head: nat, cap: nat, base: nat, frames: seq<seq<byte>>,
                      i: nat, j: nat, k: nat, l: nat)
    requires Tiled(slots, n, head, cap, base, frames) && Sized(frames)
    requires i < j < |frames| && k < |frames[i]| && l < |frames[j]|
    ensures var a, b := slots[At(head, i, n)].off, slots[At(head, j, n)].off;
      a < cap && b < cap && k <= cap && l <= cap && At(a, k, cap) != At(b, l, cap)
  {
    BeforeGrows(frames, i);
    BeforeGrows(frames, j);
    BeforeOrdered(frames, i, j);
    hide Concat, Before, Sized;
    assert slots[At(head, i, n)] == Slot(At(base, Before(frames, i), cap), |frames[i]|);
    assert slots[At(head, j, n)] == Slot(At(base, Before(frames, j), cap), |frames[j]|);
  }

  // ---------------------------------------------------------------------
  // The whole representation, and what each operation does to it
  // ---------------------------------------------------------------------

  ghost predicate Ring(arena: seq<byte>, cap: nat, slots: seq<Slot>, n: nat,
                       head: nat, tail: nat, depth: nat, used: nat, base: nat, frames: seq<seq<byte>>)
  {
    && depth == |frames| <= n && used == |Concat(frames)| <= cap && Sized(frames)
    && Packed(arena, cap, base, Concat(frames))
    && Tiled(slots, n, head, cap, base, frames)
    && tail == At(head, depth, n)
  }

  lemma RingEmpty(arena: seq<byte>, cap: nat, slots: seq<Slot>, n: nat, head: nat, tail: nat, base: nat)
    requires base < cap <= |arena| && head < n <= |slots| && tail == head
    ensures Ring(arena, cap, slots, n, head, tail, 0, 0, base, [])
  {
  }

  lemma RingFacts(arena: seq<byte>, cap: nat, slots: seq<Slot>, n: nat,
                  head: nat, tail: nat, depth: nat, used: nat, base: nat, frames: seq<seq<byte>>)
    requires Ring(arena, cap, slots, n, head, tail, depth, used, base, frames)
    ensures head < n <= |slots| && tail < n && base < cap <= |arena|
    ensures depth == |frames| <= n && used == |Concat(frames)| <= cap
    ensures tail == At(head, depth, n)
    ensures depth == 0 ==> frames == [] && tail == head
  {
  }

  lemma RingPush(a0: seq<byte>, a1: seq<byte>, cap: nat, slots: seq<Slot>, n: nat,
                 head: nat, tail: nat, depth: nat, used: nat, base: nat, frames: seq<seq<byte>>, f: seq<byte>)
    requires Ring(a0, cap, slots, n, head, tail, depth, used, base, frames)
    requires 1 <= |f| <= MAX_LEN && depth < n && used + |f| <= cap && tail < |slots| && |a1| == |a0|
    requires forall i :: 0 <= i < |a1| ==> a1[i] == Written(a0, cap, At(base, used, cap), f, i)
    ensures Ring(a1, cap, slots[tail := Slot(At(base, used, cap), |f|)], n,
                 head, At(tail, 1, n), depth + 1, used + |f|, base, frames + [f])
    ensures |Concat(frames + [f])| == |Concat(frames)| + |f|
  {
    hide Packed, Tiled, Written, Concat, Sized;
    PackedPush(a0, a1, cap, base, Concat(frames), f);
    TiledPush(slots, n, head, cap, base, frames, f);
    FlatUnique(frames, f);
    SizedPush(frames, f);
  }

  lemma RingPop(arena: seq<byte>, cap: nat, slots: seq<Slot>, n: nat,
                head: nat, tail: nat, depth: nat, used: nat, base: nat, frames: seq<seq<byte>>)
    requires Ring(arena, cap, slots, n, head, tail, depth, used, base, frames) && frames != []
    ensures var f := frames[0];
      && slots[head] == Slot(base, |f|) && |f| <= used
      && (forall k :: 0 <= k < |f| ==> arena[At(base, k, cap)] == f[k])
      && |Concat(frames)| == |f| + |Concat(frames[1..])|
      && Ring(arena, cap, slots, n, At(head, 1, n), tail, depth - 1, used - |f|, At(base, |f|, cap), frames[1..])
  {
    RingFacts(arena, cap, slots, n, head, tail, depth, used, base, frames);
    AtStep(head, depth, n);
    hide Packed, Tiled, Concat, Sized, At;
    TiledPop(slots, n, head, cap, base, frames);
    PackedPop(arena, cap, base, frames[0], Concat(frames[1..]));
    SizedTail(frames);
  }

  lemma RingLast(arena: seq<byte>, cap: nat, slots: seq<Slot>, n: nat,
                 head: nat, tail: nat, depth: nat, used: nat, base: nat, frames: seq<seq<byte>>)
    returns (k: nat)
    requires Ring(arena, cap, slots, n, head, tail, depth, used, base, frames) && frames != []
    ensures Rem(tail + n - 1, n) == k < n && k == At(head, depth - 1, n)
  {
    hide Ring, Rem;
    RingFacts(arena, cap, slots, n, head, tail, depth, used, base, frames);
    AtStep(head, depth, n);
    RemIsAt(tail, n - 1, n);
    k := At(head, depth - 1, n);
  }

  lemma RingEnd(arena: seq<byte>, cap: nat, slots: seq<Slot>, n: nat,
                head: nat, tail: nat, depth: nat, used: nat, base: nat, frames: seq<seq<byte>>, k: nat)
    requires Ring(arena, cap, slots, n, head, tail, depth, used, base, frames) && frames != [] && used < cap
    requires k < |slots| && head < n && k == At(head, depth - 1, n)
    ensures slots[k].off < cap && slots[k].len <= MAX_LEN && slots[k].len <= cap
    ensures Rem(slots[k].off + slots[k].len, cap) == At(base, used, cap)
  {
    RingFacts(arena, cap, slots, n, head, tail, depth, used, base, frames);
    hide Packed, Tiled, Concat, Sized, Rem;
    TiledEnd(slots, n, head, cap, base, frames);
    RemIsAt(slots[k].off, slots[k].len, cap);
  }

  // ---------------------------------------------------------------------
  // The queue
  // ---------------------------------------------------------------------

  class TxQueue {
    var arena: array?<byte>
    var cap: nat
    var slots: array?<Slot>
    var slotCap: nat
    var head: nat
    var tail: nat
    var depth: nat
    var used: nat
    var c: Counters
    ghost var contents: seq<seq<byte>>
    ghost var base: nat
    ghost var t: Totals

    predicate Attached()
      reads `arena, `cap, `slots, `slotCap
    {
      arena != null && slots != null && cap > 0 && slotCap > 0
    }

    /** What the caller lent. */
    ghost function Memory(): (array?<byte>, nat, array?<Slot>, nat)
      reads `arena, `cap, `slots, `slotCap
    {
      (arena, cap, slots, slotCap)
    }

    ghost predicate Shape()
      reads `arena, `cap, `slots, `slotCap, `head, `tail, `depth, `used, `contents, `base, arena, slots
    {
      && cap <= MAX_BYTES && slotCap <= MAX_SLOTS
      && (arena != null ==> cap <= arena.Length)
      && (slots != null ==> slotCap <= slots.Length)
      && (!Attached() ==> head == tail == depth == used == 0 && contents == [])
      && (Attached() ==> Ring(arena[..cap], cap, slots[..slotCap], slotCap, head, tail, depth, used, base, contents))
    }

    ghost predicate Valid()
      reads this, arena, slots
    {
      Shape() && Balanced(c, t, contents) && depth <= c.depthHighWater
    }

    constructor ()
      ensures Valid() && Memory() == (null, 0, null, 0) && contents == []
      ensures t == Totals(0, 0, 0, 0, 0, 0, 0, 0, 0) && c == Counters(0, 0, 0, 0, 0, 0, 0)
    {
      arena, cap, slots, slotCap := null, 0, null, 0;
      head, tail, depth, used := 0, 0, 0, 0;
      c := Counters(0, 0, 0, 0, 0, 0, 0);
      contents, base := [], 0;
      t := Totals(0, 0, 0, 0, 0, 0, 0, 0, 0);
    }

    /** Anything still waiting is forgotten. `c.depth` is left as it was: the
        gauge is in step afterwards exactly when it read zero before. */
    method Attach(a: array?<byte>, bytes: nat, s: array?<Slot>, count: nat)
      requires Valid()
      requires bytes <= MAX_BYTES && count <= MAX_SLOTS
      requires (a != null ==> bytes <= a.Length) && (s != null ==> count <= s.Length)
      modifies this
      ensures Valid() && contents == []
      ensures arena == a && cap == bytes && slots == s && slotCap == count
      ensures c == old(c)
      ensures t == old(t.(discarded := t.discarded + |contents|,
                          bytesDiscarded := t.bytesDiscarded + |Concat(contents)|))
      ensures c.depth == depth <==> old(c.depth) == 0
    {
      hide Ring, Balanced, Concat, Shape;
      BookLoss(c.depth);
      Borrow(a, bytes, s, count);
    }

    method Borrow(a: array?<byte>, bytes: nat, s: array?<Slot>, count: nat)
      requires bytes <= MAX_BYTES && count <= MAX_SLOTS
      requires (a != null ==> bytes <= a.Length) && (s != null ==> count <= s.Length)
      modifies `arena, `cap, `slots, `slotCap, `head, `tail, `depth, `used, `contents, `base
      ensures Shape() && contents == [] && depth == 0
      ensures arena == a && cap == bytes && slots == s && slotCap == count
    {
      hide Ring, Balanced, Concat;
      arena, cap := a, bytes;
      slots, slotCap := s, count;
      head, tail, depth := 0, 0, 0;
      used := 0;
      contents, base := [], 0;
      if Attached() {
        RingEmpty(arena[..cap], cap, slots[..slotCap], slotCap, head, tail, base);
      }
    }

    /** What waits when the memory changes hands is written off. */
    method BookLoss(gauge: nat)
      requires Balanced(c, t, contents)
      modifies this`c, this`t
      ensures Balanced(c, t, [])
      ensures c == old(c).(depth := gauge)
      ensures t == old(t.(discarded := t.discarded + |contents|,
                          bytesDiscarded := t.bytesDiscarded + |Concat(contents)|))
    {
      hide Balanced, Concat;
      BalancedLoss(c, t, contents, gauge);
      t := t.(discarded := t.discarded + |contents|, bytesDiscarded := t.bytesDiscarded + |Concat(contents)|);
      c := c.(depth := gauge);
    }

    method Detach()
      requires Valid()
      modifies this
      ensures Valid() && contents == [] && Memory() == (null, 0, null, 0)
      ensures c == old(c).(depth := 0)
      ensures t == old(t.(discarded := t.discarded + |contents|,
                          bytesDiscarded := t.bytesDiscarded + |Concat(contents)|))
    {
      hide Ring, Balanced, Concat, Shape;
      BookLoss(0);
      LetGo();
    }

    method LetGo()
      modifies `arena, `cap, `slots, `slotCap, `head, `tail, `depth, `used, `contents, `base
      ensures Shape() && contents == [] && depth == 0 && Memory() == (null, 0, null, 0)
    {
      hide Ring, Balanced, Concat;
      arena, slots := null, null;
      cap, slotCap := 0, 0;
      head, tail, depth := 0, 0, 0;
      used := 0;
      contents, base := [], 0;
    }

    /** Taken exactly when the queue is attached, the frame has a legal length
        and both a slot and its bytes are free; otherwise counted and forgotten. */
    method Push(frame: seq<byte>) returns (ok: bool)
      requires Valid()
      modifies this, arena, slots
      ensures Valid()
      ensures Memory() == old(Memory())
      ensures ok <==> (old(Attached()) && 1 <= |frame| <= MAX_LEN
                       && old(|contents|) < slotCap && old(|Concat(contents)|) + |frame| <= cap)
      ensures contents == if ok then old(contents) + [frame] else old(contents)
      ensures t == if ok then old(t).(queued := old(t.queued) + 1, bytesQueued := old(t.bytesQueued) + |frame|)
                   else old(t).(refused := old(t.refused) + 1)
      ensures c.depth == if ok then |contents| else old(c.depth)
      ensures c.depthHighWater == if ok && old(c.depthHighWater) < |contents| then |contents| else old(c.depthHighWater)
    {
      hide Shape, Balanced, Concat;
      Facts();
      var len := |frame|;
      if !Attached() || len == 0 || len > MAX_LEN {
        Refuse();
        ok := false;
      } else if depth >= slotCap || used + len > cap {
        Refuse();
        ok := false;
      } else {
        ghost var w := contents;
        Place(frame);
        BookPush(w, frame);
        ok := true;
      }
    }

    method BookPush(ghost w: seq<seq<byte>>, frame: seq<byte>)
      requires Balanced(c, t, w) && contents == w + [frame] && depth == |contents|
      modifies this`c, this`t
      ensures Balanced(c, t, contents)
      ensures t == old(t).(queued := old(t.queued) + 1, bytesQueued := old(t.bytesQueued) + |frame|)
      ensures c.depth == depth
      ensures c.depthHighWater == if old(c.depthHighWater) < depth then depth else old(c.depthHighWater)
    {
      BalancedMoves(c, t, w, frame, depth, if c.depthHighWater < depth then depth else c.depthHighWater);
      hide Balanced, Up;
      t := t.(queued := t.queued + 1, bytesQueued := t.bytesQueued + |frame|);
      c := c.(framesQueued := Up(c.framesQueued, 1), bytesQueued := Up(c.bytesQueued, |frame|), depth := depth);
      if depth > c.depthHighWater { c := c.(depthHighWater := depth); }
    }

    /** The part of a push that moves bytes: arena, slot, tail, depth, used. */
    method Place(frame: seq<byte>)
      requires Shape() && Attached() && 1 <= |frame| <= MAX_LEN
      requires |contents| < slotCap && |Concat(contents)| + |frame| <= cap
      modifies arena, slots, this`tail, this`depth, this`used, this`contents, this`base
      ensures Shape()
      ensures contents == old(contents) + [frame] && depth == |contents|
      ensures |Concat(contents)| == |Concat(old(contents))| + |frame|
    {
      hide Ring, Concat, Rem;
      Facts();
      var b := HeadByte();
      var off := Rem(b, cap);
      assert off == b by { RemIsAt(b, 0, cap); }
      if depth == 0 {
        base := 0;
        RingEmpty(arena[..cap], cap, slots[..slotCap], slotCap, head, tail, base);
      }
      Store(off, frame);
      tail := Rem(tail + 1, slotCap);
      contents := contents + [frame];
      depth := depth + 1;
      used := used + |frame|;
    }

    /** The frame's bytes into the arena and its slot into the table. */
    method Store(off: nat, frame: seq<byte>)
      requires Attached() && cap <= arena.Length && slotCap <= slots.Length
      requires Ring(arena[..cap], cap, slots[..slotCap], slotCap, head, tail, depth, used, base, contents)
      requires 1 <= |frame| <= MAX_LEN && depth < slotCap && used + |frame| <= cap
      requires base < cap && off == At(base, used, cap)
      modifies arena, slots
      ensures Ring(arena[..cap], cap, slots[..slotCap], slotCap, head, Rem(tail + 1, slotCap),
                   depth + 1, used + |frame|, base, contents + [frame])
      ensures |Concat(contents + [frame])| == |Concat(contents)| + |frame|
    {
      hide Ring, Concat, Written, Rem;
      RingFacts(arena[..cap], cap, slots[..slotCap], slotCap, head, tail, depth, used, base, contents);
      ghost var a0, s0 := arena[..cap], slots[..slotCap];
      WriteWrapped(off, frame);
      ghost var a1 := arena[..cap];
      RingPush(a0, a1, cap, s0, slotCap, head, tail, depth, used, base, contents, frame);
      slots[tail] := Slot(off, |frame|);
      RemIsAt(tail, 1, slotCap);
      assert arena[..cap] == a1 && slots[..slotCap] == s0[tail := Slot(off, |frame|)];
    }

    lemma Facts()
      requires Shape()
      ensures depth == |contents| && used == |Concat(contents)|
      ensures Attached() ==>
        head < slotCap <= slots.Length && depth <= slotCap && used <= cap <= arena.Length && base < cap
      ensures Attached() ==> tail == At(head, depth, slotCap)
      ensures Attached() ==> tail < slotCap && (depth == 0 ==> tail == head)
      ensures !Attached() ==> contents == []
    {
      if Attached() {
        RingFacts(arena[..cap], cap, slots[..slotCap], slotCap, head, tail, depth, used, base, contents);
      }
    }

    method Refuse()
      requires Valid()
      modifies this`c, this`t
      ensures Valid()
      ensures c == old(c).(framesDropped := c.framesDropped)
      ensures t == old(t).(refused := old(t.refused) + 1)
    {
      hide Shape, Balanced, Up;
      BalancedMoves(c, t, contents, [], 0, 0);
      c := c.(framesDropped := Up(c.framesDropped, 1));
      t := t.(refused := t.refused + 1);
    }

    /** The oldest frame, byte for byte. A frame longer than the caller's buffer
        is consumed, counted as dropped, and never truncated. */
    method Pop(out: array<byte>, outCap: nat) returns (ok: bool, len: nat)
      requires Valid() && outCap <= out.Length
      requires out != arena
      modifies this, out
      ensures Valid()
      ensures Memory() == old(Memory())
      ensures ok <==> old(contents) != [] && |old(contents)[0]| <= outCap
      ensures ok ==> len == |old(contents)[0]| && out[..len] == old(contents)[0]
      ensures forall k :: (if ok then len else 0) <= k < out.Length ==> out[k] == old(out[k])
      ensures contents == if old(contents) == [] then [] else old(contents)[1..]
      ensures old(contents) == [] ==> c == old(c)
      ensures old(contents) != [] ==> c.depth == |contents| && c.depthHighWater == old(c.depthHighWater)
      ensures t ==
        if old(contents) == [] then old(t)
        else if ok then old(t).(sent := old(t.sent) + 1, bytesSent := old(t.bytesSent) + len)
        else old(t).(tooBig := old(t.tooBig) + 1, bytesTooBig := old(t.bytesTooBig) + |old(contents)[0]|)
    {
      hide Shape, Concat, Balanced, Up;
      Facts();
      len := 0;
      if !Attached() || depth == 0 { return false, 0; }
      ghost var f := contents[0];
      Oldest();
      BalancedPop(c, t, contents, depth - 1);
      var s := slots[head];
      if s.len > outCap {
        t := t.(tooBig := t.tooBig + 1, bytesTooBig := t.bytesTooBig + s.len);
        Consume(s);
        c := c.(framesDropped := Up(c.framesDropped, 1));
        ok := false;
      } else {
        ReadWrapped(s.off, out, s.len);
        assert out[..s.len] == f;
        len := s.len;
        t := t.(sent := t.sent + 1, bytesSent := t.bytesSent + s.len);
        Consume(s);
        c := c.(framesSent := Up(c.framesSent, 1), bytesSent := Up(c.bytesSent, s.len));
        ok := true;
      }
    }

    /** What the head slot and the arena say about the oldest frame. */
    lemma Oldest()
      requires Shape() && Attached() && contents != []
      ensures var f := contents[0];
        && slots[head] == Slot(base, |f|) && |f| <= cap
        && forall k :: 0 <= k < |f| ==> arena[At(base, k, cap)] == f[k]
    {
      hide Ring, Concat, Rem;
      Facts();
      RingPop(arena[..cap], cap, slots[..slotCap], slotCap, head, tail, depth, used, base, contents);
      forall k | 0 <= k < |contents[0]|
        ensures arena[At(base, k, cap)] == contents[0][k]
      {
        assert arena[..cap][At(base, k, cap)] == contents[0][k];
      }
      assert slots[..slotCap][head] == slots[head];
    }

    method Consume(s: Slot)
      requires Shape() && Attached() && contents != [] && s == slots[head]
      modifies this`head, this`depth, this`used, this`c, this`contents, this`base
      ensures Shape()
      ensures contents == old(contents)[1..] && depth == |contents|
      ensures |Concat(old(contents))| == |old(contents)[0]| + |Concat(contents)|
      ensures c == old(c).(depth := |contents|)
    {
      hide Ring, Concat, Rem;
      Facts();
      RingPop(arena[..cap], cap, slots[..slotCap], slotCap, head, tail, depth, used, base, contents);
      assert slots[..slotCap][head] == slots[head];
      RemIsAt(head, 1, slotCap);
      head := Rem(head + 1, slotCap);
      depth := depth - 1;
      used := used - s.len;
      c := c.(depth := depth);
      base := At(base, s.len, cap);
      contents := contents[1..];
    }

    /** Where the next frame starts: behind the last one, or at the start of the
        arena when nothing waits. The sum is a 32-bit one. */
    method HeadByte() returns (b: nat)
      requires Shape() && Attached() && used < cap
      ensures b < cap
      ensures b == if contents == [] then 0 else At(base, used, cap)
    {
      hide Ring, Concat, Rem;
      Facts();
      if depth == 0 { return 0; }
      ghost var g := RingLast(arena[..cap], cap, slots[..slotCap], slotCap, head, tail, depth, used, base, contents);
      RingEnd(arena[..cap], cap, slots[..slotCap], slotCap, head, tail, depth, used, base, contents, g);
      var k := Rem(tail + slotCap - 1, slotCap);
      var last := slots[k];
      assert last == slots[..slotCap][k];
      b := Rem(Wrap(last.off + last.len), cap);
    }

    method WriteWrapped(off: nat, src: seq<byte>)
      requires Attached() && off < cap <= arena.Length && |src| <= cap
      modifies arena
      ensures forall i :: 0 <= i < cap ==> arena[i] == Written(old(arena[..cap]), cap, off, src, i)
    {
      var first := if off + |src| <= cap then |src| else cap - off;
      forall i | 0 <= i < first { arena[off + i] := src[i]; }
      if first < |src| {
        forall i | 0 <= i < |src| - first { arena[i] := src[first + i]; }
      }
    }

    method ReadWrapped(off: nat, dst: array<byte>, len: nat)
      requires Attached() && off < cap <= arena.Length && len <= cap && len <= dst.Length
      requires dst != arena
      modifies dst
      ensures forall k :: 0 <= k < len ==> dst[k] == arena[At(off, k, cap)]
      ensures forall k :: len <= k < dst.Length ==> dst[k] == old(dst[k])
    {
      var first := if off + len <= cap then len else cap - off;
      forall i | 0 <= i < first { dst[i] := arena[off + i]; }
      if first < len {
        forall i | 0 <= i < len - first { dst[first + i] := arena[i]; }
      }
    }
  }

  /** New memory without letting go of the old: the gauge still shows the frame that
      waited in it. */
  method GaugeOutlivesAttach() returns (q: TxQueue)
    ensures q.Valid() && q.contents == [] && q.c.depth == 1
  {
    var arena, slots := new byte[8], new Slot[1](_ => Slot(0, 0));
    q := new TxQueue();
    q.Attach(arena, 8, slots, 1);
    assert |Concat(q.contents)| == 0;
    var ok := q.Push([0x55]);
    q.Attach(arena, 8, slots, 1);
  }
}
