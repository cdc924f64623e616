/** How PPP's frames reach the UART, from `transmit` and `takeOver` in
    src/net/PppUart.cpp: lwIP hands a frame over in pieces, the pieces are
    gathered, and the frame is written whole or dropped whole. */
module PppTransmit {
  import opened Bytes

  const FRAME_MAX: nat := 3200

  /** kTxWaitMs at kTxWaitStepMs: how often the room is read, the first included. */
  const WAIT_MS: nat := 300
  const STEP_MS: nat := 5
  const READINGS: nat := 61

  // ---------------------------------------------------------------------
  // What the pieces spell
  // ---------------------------------------------------------------------

  /** The frames a sequence of pieces completes, and what is left over. */
  datatype Cut = Cut(frames: seq<seq<byte>>, rest: seq<byte>)

  /** The bytes so far end a frame: a flag, and not the opening one alone. */
  predicate Ends(gathered: seq<byte>) { |gathered| > 1 && Last(gathered) == FLAG }

  function CutUp(pieces: seq<seq<byte>>): Cut {
    if pieces == [] then Cut([], []) else Take(CutUp(Init(pieces)), Last(pieces))
  }

  function Take(c: Cut, piece: seq<byte>): Cut {
    var g := c.rest + piece;
    if Ends(g) then Cut(c.frames + [g], []) else Cut(c.frames, g)
  }

  /** A frame as PPP puts it on a serial line: no flag but at its two ends, the
      opening one sometimes left out. */
  ghost predicate OnTheLine(f: seq<byte>) {
    |f| > 1 && Last(f) == FLAG && forall i :: 0 < i < |f| - 1 ==> f[i] != FLAG
  }

  lemma CutSnoc(pieces: seq<seq<byte>>, piece: seq<byte>)
    ensures CutUp(pieces + [piece]) == Take(CutUp(pieces), piece)
  {
    assert Init(pieces + [piece]) == pieces;
  }

  /** lwIP hands over no empty piece; `Transmit` refuses one. */
  ghost predicate Solid(pieces: seq<seq<byte>>) { forall i :: 0 <= i < |pieces| ==> pieces[i] != [] }

  /** Short of its end a frame can be cut anywhere. */
  lemma {:induction false} PartCutUp(before: seq<seq<byte>>, pieces: seq<seq<byte>>, f: seq<byte>)
    requires OnTheLine(f) && CutUp(before).rest == [] && Solid(pieces)
    requires Concat(pieces) < f
    ensures CutUp(before + pieces) == Cut(CutUp(before).frames, Concat(pieces))
  {
    if pieces == [] {
      assert before + pieces == before;
    } else {
      var p := Last(pieces);
      assert before + pieces == (before + Init(pieces)) + [p];
      PartCutUp(before, Init(pieces), f);
      CutSnoc(before + Init(pieces), p);
      var g := Concat(pieces);
      assert g == f[..|g|] && Last(g) == f[|g| - 1];
    }
  }

  /** However one frame is cut into pieces, it is gathered as it was. */
  lemma FrameCutUp(before: seq<seq<byte>>, pieces: seq<seq<byte>>, f: seq<byte>)
    requires OnTheLine(f) && CutUp(before).rest == [] && Solid(pieces)
    requires Concat(pieces) == f
    ensures CutUp(before + pieces) == Cut(CutUp(before).frames + [f], [])
  {
    var p := Last(pieces);
    assert before + pieces == (before + Init(pieces)) + [p];
    assert f == Concat(Init(pieces)) + p;
    PartCutUp(before, Init(pieces), f);
    CutSnoc(before + Init(pieces), p);
  }

  /** Whatever frames are handed over, however each is cut into pieces, the frames
      completed are those frames. */
  lemma {:induction false} FramesCutUp(before: seq<seq<byte>>, frames: seq<seq<byte>>, cuts: seq<seq<seq<byte>>>)
    requires CutUp(before).rest == [] && Cuts(frames, cuts)
    ensures CutUp(before + Concat(cuts)) == Cut(CutUp(before).frames + frames, [])
  {
    hide CutUp, OnTheLine;
    if frames == [] {
      assert before + Concat(cuts) == before;
      assert CutUp(before) == Cut(CutUp(before).frames, []);
    } else {
      var most := before + Concat(Init(cuts));
      FramesCutUp(before, Init(frames), Init(cuts));
      FrameCutUp(most, Last(cuts), Last(frames));
      assert before + Concat(cuts) == most + Last(cuts);
      assert CutUp(before).frames + frames == CutUp(before).frames + Init(frames) + [Last(frames)];
    }
  }

  /** `cuts[i]` is a way of handing over `frames[i]`. */
  ghost predicate Cuts(frames: seq<seq<byte>>, cuts: seq<seq<seq<byte>>>) {
    && |cuts| == |frames|
    && forall i :: 0 <= i < |frames| ==> OnTheLine(frames[i]) && Concat(cuts[i]) == frames[i] && Solid(cuts[i])
  }

  // ---------------------------------------------------------------------
  // What becomes of a frame
  // ---------------------------------------------------------------------

  /** The frame fits the buffer, and one of the readings finds room for it. */
  ghost predicate Fits(f: seq<byte>, rooms: seq<Option<nat>>) {
    |f| <= FRAME_MAX && exists i :: 0 <= i < |rooms| && rooms[i].Some? && rooms[i].value >= |f|
  }

  /** The frames that were sent, in order. */
  function Sent(frames: seq<seq<byte>>, fate: seq<bool>): seq<seq<byte>>
    requires |frames| == |fate|
  {
    if frames == [] then []
    else Sent(Init(frames), Init(fate)) + if Last(fate) then [Last(frames)] else []
  }

  function Dropped(fate: seq<bool>): nat {
    if fate == [] then 0 else Dropped(Init(fate)) + if Last(fate) then 0 else 1
  }

  lemma FateSnoc(frames: seq<seq<byte>>, fate: seq<bool>, f: seq<byte>, sent: bool)
    requires |frames| == |fate|
    ensures Sent(frames + [f], fate + [sent]) == Sent(frames, fate) + if sent then [f] else []
    ensures Dropped(fate + [sent]) == Dropped(fate) + if sent then 0 else 1
  {
    assert Init(frames + [f]) == frames && Init(fate + [sent]) == fate;
  }

  lemma WireSnoc(frames: seq<seq<byte>>, fate: seq<bool>, f: seq<byte>, sent: bool)
    requires |frames| == |fate|
    ensures Concat(Sent(frames + [f], fate + [sent])) == Concat(Sent(frames, fate)) + if sent then f else []
  {
    hide Concat, Sent;
    FateSnoc(frames, fate, f, sent);
    if sent {
      ConcatSnoc(Sent(frames, fate), f);
    } else {
      assert Sent(frames, fate) + [] == Sent(frames, fate);
    }
  }

  /** Every frame is sent or counted dropped, and never both. */
  lemma {:induction false} SentOrDropped(frames: seq<seq<byte>>, fate: seq<bool>)
    requires |frames| == |fate|
    ensures |Sent(frames, fate)| + Dropped(fate) == |frames|
  {
    if frames != [] { SentOrDropped(Init(frames), Init(fate)); }
  }

  lemma WrapUp(x: nat, d: nat)
    ensures Wrap(Wrap(x) + d) == Wrap(x + d)
  {
  }

  /** The wire and the counters after a history of frames and their fates. */
  ghost predicate Whole(frames: seq<seq<byte>>, fate: seq<bool>, wire: seq<byte>, tx: nat, txDropped: nat) {
    && |fate| == |frames|
    && wire == Concat(Sent(frames, fate)) && tx == Wrap(|wire|) && txDropped == Wrap(Dropped(fate))
  }

  lemma WholeNothing()
    ensures Whole([], [], [], 0, 0)
  {
  }

  lemma WholeSnoc(frames: seq<seq<byte>>, fate: seq<bool>, wire: seq<byte>, tx: nat, txDropped: nat,
                  f: seq<byte>, sent: bool)
    requires Whole(frames, fate, wire, tx, txDropped)
    ensures Whole(frames + [f], fate + [sent], if sent then wire + f else wire,
                  if sent then Wrap(tx + |f|) else tx, if sent then txDropped else Wrap(txDropped + 1))
  {
    hide Wrap, Concat, Sent, Dropped;
    FateSnoc(frames, fate, f, sent);
    WireSnoc(frames, fate, f, sent);
    WrapUp(|wire|, |f|);
    WrapUp(Dropped(fate), 1);
  }

  /** The buffer holds what has been gathered, unless that is too long for it. */
  predicate Holds(buf: seq<byte>, len: nat, overflow: bool, gathered: seq<byte>) {
    && |buf| == FRAME_MAX
    && (overflow <==> |gathered| > FRAME_MAX)
    && (!overflow ==> len == |gathered| && buf[..len] == gathered)
  }

  class Transmitter {
    const frame: array<byte>
    var frameLen: nat
    var overflow: bool
    var started: bool
    var tx: nat
    var txDropped: nat

    /** The UART, and the history: the pieces of this session, the frames of the
        sessions before it, and what became of each frame. */
    ghost var wire: seq<byte>
    ghost var pieces: seq<seq<byte>>
    ghost var earlier: seq<seq<byte>>
    ghost var fate: seq<bool>

    /** What has come of the frame being gathered. */
    ghost function Gathered(): seq<byte>
      reads `pieces
    {
      CutUp(pieces).rest
    }

    /** Every frame completed so far. */
    ghost function Frames(): seq<seq<byte>>
      reads `pieces, `earlier
    {
      earlier + CutUp(pieces).frames
    }

    /** The wire is the frames sent, each whole, one after the other. */
    ghost predicate Valid()
      reads this, frame
    {
      && Holds(frame[..], frameLen, overflow, Gathered())
      && Whole(Frames(), fate, wire, tx, txDropped)
    }

    constructor ()
      ensures Valid() && fresh(frame) && !started && wire == [] && Frames() == [] && Gathered() == []
    {
      frame := new byte[FRAME_MAX];
      frameLen, overflow, started, tx, txDropped := 0, false, false, 0, 0;
      wire, pieces, earlier, fate := [], [], [], [];
      WholeNothing();
    }

    /** The part of `takeOver` that readies this: nothing of an earlier session
        is in the way of the next one's first frame. */
    method Start()
      requires Valid()
      modifies `frameLen, `overflow, `started, `pieces, `earlier
      ensures Valid() && started && Frames() == old(Frames())
      ensures Gathered() == if old(started) then old(Gathered()) else []
    {
      hide Whole;
      if !started {
        frameLen := 0;
        overflow := false;
        started := true;
        earlier, pieces := Frames(), [];
        assert Frames() == old(Frames());
      }
    }

    /** The part of `finish` that does. */
    method Stop()
      requires Valid()
      modifies `started
      ensures Valid() && !started
    {
      started := false;
    }

    /** A piece onto the end of the frame, or one too many. */
    method Append(piece: seq<byte>)
      requires Valid() && piece != []
      modifies `frameLen, `overflow, frame
      ensures Holds(frame[..], frameLen, overflow, Gathered() + piece)
      ensures Whole(Frames(), fate, wire, tx, txDropped)
    {
      hide Whole;
      if !overflow {
        if frameLen + |piece| > FRAME_MAX {
          overflow := true;
        } else {
          forall i | 0 <= i < |piece| {
            frame[frameLen + i] := piece[i];
          }
          assert frame[..frameLen + |piece|] == old(frame[..frameLen]) + piece;
          frameLen := frameLen + |piece|;
        }
      }
    }

    /** The wait for room: the whole frame in one write, or nothing. */
    method Write(ghost f: seq<byte>, rooms: seq<Option<nat>>) returns (sent: bool)
      requires Holds(frame[..], frameLen, overflow, f) && |rooms| == READINGS
      modifies `tx, `wire
      ensures sent == Fits(f, rooms)
      ensures sent <==> |f| <= 3200 && exists i :: 0 <= i < 61 && rooms[i].Some? && |f| <= rooms[i].value
      ensures wire == if sent then old(wire) + f else old(wire)
      ensures tx == if sent then Wrap(old(tx) + |f|) else old(tx)
    {
      hide Wrap;
      sent := false;
      if !overflow {
        var waited := 0;
        while waited <= WAIT_MS && !sent
          invariant waited % STEP_MS == 0 && waited <= WAIT_MS + STEP_MS
          invariant forall i :: 0 <= i < waited / STEP_MS && (sent ==> i < waited / STEP_MS - 1)
                                ==> rooms[i].None? || rooms[i].value < |f|
          invariant sent ==> Fits(f, rooms)
          invariant wire == if sent then old(wire) + f else old(wire)
          invariant tx == if sent then Wrap(old(tx) + |f|) else old(tx)
          decreases WAIT_MS + STEP_MS - waited
        {
          var room := rooms[waited / STEP_MS];
          if room.Some? && room.value >= frameLen {
            wire := wire + frame[..frameLen];
            tx := Wrap(tx + frameLen);
            sent := true;
          }
          waited := waited + STEP_MS;
        }
      }
    }

    /** The end of a frame: written or counted, and nothing of it left. */
    method Settle(ghost g: seq<byte>, ghost before: seq<seq<byte>>, rooms: seq<Option<nat>>) returns (sent: bool)
      requires Holds(frame[..], frameLen, overflow, g) && |rooms| == READINGS
      requires Whole(before, fate, wire, tx, txDropped)
      modifies `frameLen, `overflow, `tx, `txDropped, `wire, `fate
      ensures sent == Fits(g, rooms) && fate == old(fate) + [sent]
      ensures Whole(before + [g], fate, wire, tx, txDropped)
      ensures Holds(frame[..], frameLen, overflow, [])
    {
      hide Whole, Wrap, Fits;
      WholeSnoc(before, fate, wire, tx, txDropped, g, Fits(g, rooms));
      sent := Write(g, rooms);
      if !sent { txDropped := Wrap(txDropped + 1); }
      frameLen := 0;
      overflow := false;
      fate := fate + [sent];
    }

    /** One piece from lwIP; `rooms` is what the UART answers if it comes to that.
        A piece that does not end the frame only joins it. One that does ends it,
        whatever becomes of the frame. */
    method Transmit(piece: seq<byte>, rooms: seq<Option<nat>>) returns (ok: bool)
      requires Valid() && |rooms| == READINGS
      modifies `frameLen, `overflow, `tx, `txDropped, `wire, `pieces, `fate, frame
      ensures Valid() && ok == (started && piece != [])
      ensures !ok ==> Gathered() == old(Gathered()) && Frames() == old(Frames()) && fate == old(fate)
      ensures ok ==> pieces == old(pieces) + [piece]
      ensures var g := old(Gathered()) + piece;
        && (ok && !Ends(g) ==> Gathered() == g && Frames() == old(Frames()) && fate == old(fate))
        && (ok && Ends(g) ==> Gathered() == [] && Frames() == old(Frames()) + [g]
                              && fate == old(fate) + [Fits(g, rooms)])
    {
      hide Whole, Wrap, Fits, CutUp;
      ok := started && piece != [];
      if ok {
        ghost var g := Gathered() + piece;
        CutSnoc(pieces, piece);
        Append(piece);
        var ends := piece[|piece| - 1] == FLAG && (frameLen > 1 || overflow);
        assert ends == Ends(g);
        pieces := pieces + [piece];
        if ends {
          var sent := Settle(g, old(Frames()), rooms);
          assert Frames() == old(Frames()) + [g];
        }
      }
    }
  }

  /** Frames handed over in any pieces, with any room at each: on the wire is a
      subsequence of them, each whole, and every other one has been counted. */
  method SendAll(t: Transmitter, frames: seq<seq<byte>>, cuts: seq<seq<seq<byte>>>, rooms: seq<seq<Option<nat>>>)
    requires t.Valid() && t.started && t.Gathered() == [] && Cuts(frames, cuts)
    requires |rooms| == |Concat(cuts)| && forall i :: 0 <= i < |rooms| ==> |rooms[i]| == READINGS
    modifies t, t.frame
    ensures t.Valid() && t.Gathered() == [] && t.Frames() == old(t.Frames()) + frames
    ensures t.fate[..|old(t.fate)|] == old(t.fate)
    ensures t.wire == Concat(Sent(t.Frames(), t.fate))
    ensures |Sent(t.Frames(), t.fate)| + Dropped(t.fate) == |t.Frames()|
  {
    hide CutUp, Whole, Cuts;
    var pieces := Concat(cuts);
    var i := 0;
    while i < |pieces|
      invariant 0 <= i <= |pieces| && t.Valid() && t.started
      invariant t.pieces == old(t.pieces) + pieces[..i] && t.earlier == old(t.earlier)
      invariant |old(t.fate)| <= |t.fate| && t.fate[..|old(t.fate)|] == old(t.fate)
    {
      AllSolid(frames, cuts, i);
      var ok := t.Transmit(pieces[i], rooms[i]);
      i := i + 1;
    }
    assert pieces[..i] == pieces;
    FramesCutUp(old(t.pieces), frames, cuts);
    assert t.Frames() == old(t.Frames()) + frames;
    WholeMeans(t);
  }

  lemma WholeMeans(t: Transmitter)
    requires t.Valid()
    ensures |t.fate| == |t.Frames()| && t.wire == Concat(Sent(t.Frames(), t.fate))
    ensures |Sent(t.Frames(), t.fate)| + Dropped(t.fate) == |t.Frames()|
  {
    SentOrDropped(t.Frames(), t.fate);
  }

  lemma {:induction false} AllSolid(frames: seq<seq<byte>>, cuts: seq<seq<seq<byte>>>, i: nat)
    requires Cuts(frames, cuts) && i < |Concat(cuts)|
    ensures Concat(cuts)[i] != []
  {
    if i < |Concat(Init(cuts))| {
      AllSolid(Init(frames), Init(cuts), i);
    } else {
      assert Concat(cuts)[i] == Last(cuts)[i - |Concat(Init(cuts))|];
    }
  }
}
