/** The serial link of src/net/UartLink.cpp: a queue, a framer and a deframer
    composed by one reader task, with `Send` callable from anywhere between its
    steps. Each method is one section run under the link's lock, so a run of
    the link is any sequence of them. */
module UartLinks {
  import opened Bytes
  import opened Hdlc
  import opened TxQueues

  /** Config.h's arena and frame table. */
  const TX_BYTES: nat := 4 * RNS_MTU
  const TX_FRAMES: nat := 8

  /** What can happen to a link that is up. */
  datatype Event = Sent(frame: seq<byte>) | Pass(chunks: seq<seq<byte>>)

  class Link {
    const queue: TxQueue
    const deframer: Deframer
    const out: array<byte>
    const framed: array<byte>
    var arena: array?<byte>
    var slots: array?<Slot>
    var up: bool
    /** The reader: whether it has been asked to stop, and whether it is there. */
    var stop: bool
    var alive: bool
    var baud: nat
    var sink: nat
    /** On this attachment: frames `Send` said yes to, frames popped, bytes written. */
    ghost var accepted: seq<seq<byte>>
    ghost var popped: seq<seq<byte>>
    ghost var wire: seq<byte>

    ghost function Repr(): set<object>
      reads this
    {
      {this, queue, deframer, deframer.buf, out, framed}
      + (if arena == null then {} else {arena as object})
      + (if slots == null then {} else {slots as object})
    }

    /** The link's parts are distinct, and the queue works in the link's arena. */
    ghost predicate Joined()
      reads this, queue
    {
      && queue.arena == arena && queue.slots == slots
      && out.Length == RNS_MTU && framed.Length == FrameCapacity(RNS_MTU)
      && deframer.buf != out && deframer.buf != framed && out != framed
      && (arena != null ==> arena != deframer.buf && arena != out && arena != framed)
    }

    /** Valid but for `up`. `c.depth` is always in step: the queue is let go of before
        it is lent memory again. */
    ghost predicate Parts()
      reads this, Repr()
    {
      && Joined() && queue.Valid() && deframer.Valid()
      && accepted == popped + queue.contents
      && wire == FramedAll(popped)
      && (forall f :: f in accepted ==> Fits(f))
      && queue.c.depth == |queue.contents|
    }

    ghost predicate Valid()
      reads this, Repr()
    {
      && Parts()
      && (up <==> queue.Attached())
      && (!up ==> arena == null && slots == null && !alive)
    }

    constructor ()
      ensures Valid() && !up && fresh(Repr())
    {
      hide TxQueue.Shape, Balanced, Remembers, Frames, Oversized, FramedAll, Concat;
      Nothing();
      queue := new TxQueue();
      deframer := new Deframer();
      out := new byte[RNS_MTU];
      framed := new byte[FrameCapacity(RNS_MTU)];
      arena, slots, up := null, null, false;
      stop, alive, baud, sink := false, false, 0, 0;
      accepted, popped, wire := [], [], [];
    }

    /** A link that is up only says whether it is what was asked for. One that is down
        comes up if the speed is one the board is qualified at, nobody has the port,
        both arrays can be had, the driver installs and the reader starts; if any of
        them fails it stays down and holds nothing. */
    method Begin(speed: nat, to: nat, usable: bool, taken: bool, arenaOk: bool, slotsOk: bool,
                 portOk: bool, taskOk: bool)
      returns (ok: bool)
      requires Valid()
      modifies Repr()
      ensures Valid() && fresh(Repr() - old(Repr()))
      ensures old(up) ==> up && (ok <==> speed == old(baud) && to == old(sink)) && alive == old(alive)
                          && accepted == old(accepted) && wire == old(wire) && queue.contents == old(queue.contents)
      ensures !old(up) ==> up == ok && (ok <==> usable && !taken && arenaOk && slotsOk && portOk && taskOk)
      ensures !old(up) && ok ==> alive && !stop && baud == speed && sink == to
                                 && accepted == [] && wire == [] && queue.contents == [] && deframer.fed == []
      ensures !up ==> arena == null && slots == null && !alive
    {
      hide TxQueue.Shape, Balanced, Remembers, Frames, Oversized, FramedAll, Concat;
      if up { return speed == baud && to == sink; }
      ok := false;
      if usable && !taken && arenaOk && slotsOk {
        Lend(to);
        if portOk && taskOk {
          stop, baud, alive, up := false, speed, true, true;
          ok := true;
        } else {
          Release();
        }
      }
    }

    /** The arrays, lent to an empty queue. */
    method Lend(to: nat)
      requires Valid() && !up
      modifies Repr()
      ensures Parts() && queue.Attached() && arena != null && slots != null && !alive && fresh(Repr() - old(Repr()))
      ensures up == old(up) && sink == to && accepted == [] && wire == [] && queue.contents == []
      ensures deframer.fed == []
    {
      hide TxQueue.Shape, Balanced, Remembers, Frames, Oversized, FramedAll, Concat;
      Nothing();
      queue.Facts();
      arena := new byte[TX_BYTES];
      slots := new Slot[TX_FRAMES](_ => Slot(0, 0));
      sink := to;
      deframer.Reset();
      queue.Attach(arena, TX_BYTES, slots, TX_FRAMES);
      popped, accepted, wire := [], [], [];
    }

    /** Detached before it is given back. */
    method Release()
      requires Parts()
      modifies Repr()
      ensures Valid() && !up && arena == null && slots == null
    {
      hide TxQueue.Shape, Balanced, Remembers, Frames, Oversized, FramedAll, Concat;
      Nothing();
      up, alive := false, false;
      queue.Detach();
      arena, slots := null, null;
      popped, accepted, wire := [], [], [];
    }

    /** `leaves` says whether the reader goes inside the second it is given. Until it
        has gone the link keeps its memory, its frames and its name for being up. */
    method End(leaves: bool) returns (done: bool)
      requires Valid()
      modifies Repr()
      ensures Valid()
      ensures done <==> !old(up) || !old(alive) || leaves
      ensures done ==> !up && arena == null && slots == null
      ensures !done ==> up && stop && alive && Repr() == old(Repr())
                        && accepted == old(accepted) && wire == old(wire) && queue.contents == old(queue.contents)
    {
      hide TxQueue.Shape, Balanced, Remembers, Frames, Oversized, FramedAll, Concat;
      if !up { return true; }
      stop := true;
      if leaves { alive := false; }
      if alive { return false; }
      Release();
      return true;
    }

    /** The reader, asked to stop, goes: at the end of its pass and no later. */
    method Leave()
      requires Valid() && alive && stop
      modifies `alive
      ensures Valid() && !alive
    {
      alive := false;
    }

    /** A frame over the MTU is refused here, never queued and lost later. */
    method Send(frame: seq<byte>) returns (ok: bool)
      requires Valid()
      modifies Repr()
      ensures Valid() && up == old(up) && alive == old(alive) && Repr() == old(Repr())
      ensures ok <==> (up && Fits(frame) && |old(queue.contents)| < queue.slotCap
                       && |Concat(old(queue.contents))| + |frame| <= queue.cap)
      ensures accepted == if ok then old(accepted) + [frame] else old(accepted)
      ensures wire == old(wire) && popped == old(popped)
      ensures queue.t.tooBig == old(queue.t.tooBig)
    {
      hide TxQueue.Shape, Balanced, Remembers, Frames, Oversized, FramedAll, Concat;
      if !up { return false; }
      if |frame| > RNS_MTU { return false; }
      ok := queue.Push(frame);
      if ok { accepted := accepted + [frame]; }
    }

    /** The receive half of a pass: whatever the reads returned, in order. */
    method Receive(chunks: seq<seq<byte>>) returns (got: seq<seq<byte>>)
      requires deframer.Valid()
      modifies deframer, deframer.buf
      ensures deframer.Valid()
      ensures deframer.fed == old(deframer.fed) + Concat(chunks)
      ensures Frames(deframer.fed) == Frames(old(deframer.fed)) + got
    {
      hide Remembers, Frames, Oversized;
      got := [];
      var i := 0;
      while i < |chunks|
        invariant 0 <= i <= |chunks| && deframer.Valid()
        invariant deframer.fed == old(deframer.fed) + Concat(chunks[..i])
        invariant Frames(deframer.fed) == Frames(old(deframer.fed)) + got
      {
        ConcatSnoc(chunks[..i], chunks[i]);
        assert chunks[..i + 1] == chunks[..i] + [chunks[i]];
        var g := deframer.FeedChunk(chunks[i]);
        got := got + g;
        i := i + 1;
      }
      assert chunks[..i] == chunks;
    }

    /** The transmit half: one frame at most, popped, framed and written. */
    method Transmit()
      requires Valid() && up && alive
      modifies this`popped, this`wire, queue, out, framed
      ensures Valid()
      ensures accepted == old(accepted)
      ensures popped == old(popped) + if old(queue.contents) == [] then [] else [old(queue.contents)[0]]
      ensures queue.t.tooBig == old(queue.t.tooBig)
      ensures queue.Memory() == old(queue.Memory())
    {
      hide TxQueue.Shape, Balanced, Remembers, Frames, Oversized, FramedAll, Stuff, Concat;
      ghost var waiting := queue.contents;
      if waiting != [] { assert waiting[0] in accepted; }
      var have, len := queue.Pop(out, out.Length);
      if have {
        var n := Frame(out[..len], framed, framed.Length);
        if n != 0 {
          FramedAllSnoc([], popped, waiting[0]);
          wire := wire + framed[..n];
        }
        popped := popped + [waiting[0]];
      }
    }

    method ReaderPass(chunks: seq<seq<byte>>) returns (got: seq<seq<byte>>)
      requires Valid() && up && alive
      modifies Repr()
      ensures Valid() && up && alive && Repr() == old(Repr())
      ensures accepted == old(accepted)
      ensures popped == old(popped) + if old(queue.contents) == [] then [] else [old(queue.contents)[0]]
      ensures queue.t.tooBig == old(queue.t.tooBig)
      ensures deframer.fed == old(deframer.fed) + Concat(chunks)
      ensures Frames(deframer.fed) == Frames(old(deframer.fed)) + got
    {
      hide TxQueue.Shape, Balanced, Remembers, Frames, Oversized, FramedAll, Concat;
      got := Receive(chunks);
      Transmit();
    }

    /** The far end, deframing what the wire carried, has exactly the frames
        sent so far, whole, unaltered and in order; what it lacks is waiting. */
    lemma FarEndHas()
      requires Valid()
      ensures Frames(wire) == popped && Oversized(wire) == 0
      ensures accepted == Frames(wire) + queue.contents
    {
      hide TxQueue.Shape, Balanced, Remembers, Frames, Oversized;
      RoundTrip(popped);
      forall f | f in popped ensures Fits(f) { assert f in accepted; }
      AllFitDeliverable(popped);
    }

    /** Any interleaving of sends and reader passes on one attachment. */
    method Run(events: seq<Event>) returns (yes: seq<seq<byte>>)
      requires Valid() && up && alive
      modifies Repr()
      ensures Valid() && up && alive
      ensures accepted == old(accepted) + yes
      ensures accepted == Frames(wire) + queue.contents
      ensures queue.t.tooBig == old(queue.t.tooBig)
    {
      hide TxQueue.Shape, Balanced, Remembers, Frames, Oversized, FramedAll, Concat;
      yes := [];
      var i := 0;
      while i < |events|
        invariant 0 <= i <= |events| && Valid() && up && alive && Repr() == old(Repr())
        invariant accepted == old(accepted) + yes
        invariant queue.t.tooBig == old(queue.t.tooBig)
      {
        match events[i] {
          case Sent(frame) =>
            var ok := Send(frame);
            if ok { yes := yes + [frame]; }
          case Pass(chunks) =>
            var _ := ReaderPass(chunks);
        }
        i := i + 1;
      }
      FarEndHas();
    }
  }

  lemma Nothing()
    ensures FramedAll([]) == [] && [] + [] == FramedAll([])
  {
  }
}
