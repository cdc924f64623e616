/** The port arbiter of src/net/PppArbiter.h: who owns the bridge UART.

    The language it waits for is defined first, without a recogniser: one or
    more flags, then an LCP Configure-Request's first bytes (RFC 1661 section
    5.1) with or without the address and control fields of RFC 1662 section 3.1,
    any of them escaped. `Feed` is then proved to hold back exactly the proper
    beginnings of such a word, and to hand the port over at exactly its end. */
module PppArbiters {
  import opened Bytes

  const HOLD_MAX: nat := 16
  const HOLD_IDLE_MS: nat := 500
  const IDLE_DEAD_MS: nat := 30000

  const WITH_AC: seq<byte> := [0xFF, 0x03, 0xC0, 0x21, 0x01]
  const BARE: seq<byte> := [0xC0, 0x21, 0x01]

  datatype Owner = Console | Ppp
  datatype Sink = Hold | ToConsole | ToPpp
  datatype Route = Route(sink: Sink, data: seq<byte>, tookOver: bool)

  // ---------------------------------------------------------------------
  // The language
  // ---------------------------------------------------------------------

  /** One byte as it may stand on the wire: itself, or an escape and its flip. */
  function Spelled(b: byte, escaped: bool): seq<byte> {
    if escaped then [ESC, Flip(b)] else [b]
  }

  function Spelling(bs: seq<byte>, how: seq<bool>): seq<byte>
    requires |bs| == |how|
  {
    if bs == [] then [] else Spelling(Init(bs), Init(how)) + Spelled(Last(bs), Last(how))
  }

  ghost predicate OnlyFlags(w: seq<byte>) { forall i :: 0 <= i < |w| ==> w[i] == FLAG }

  /** `w` is one or more flags and then some spelling of `bs`. */
  ghost predicate Opens(w: seq<byte>, bs: seq<byte>) {
    exists lead: seq<byte>, how: seq<bool> :: SpeltAs(w, bs, lead, how)
  }

  ghost predicate SpeltAs(w: seq<byte>, bs: seq<byte>, lead: seq<byte>, how: seq<bool>) {
    && lead != [] && OnlyFlags(lead) && |how| == |bs| && w == lead + Spelling(bs, how)
  }

  ghost predicate Takeover(w: seq<byte>) { Opens(w, WITH_AC) || Opens(w, BARE) }

  /** A proper beginning of something that could still become a takeover. */
  ghost predicate Candidate(w: seq<byte>) {
    w != [] && exists rest: seq<byte> :: rest != [] && Takeover(w + rest)
  }

  // ---------------------------------------------------------------------
  // Reading a run one byte at a time
  // ---------------------------------------------------------------------

  datatype Scan = Start | In(decoded: seq<byte>, esc: bool) | Bad

  function Read(s: Scan, c: byte): Scan {
    match s
    case Bad => Bad
    case Start => if c == FLAG then In([], false) else Bad
    case In(d, esc) =>
      if c == FLAG then (if d == [] && !esc then s else Bad)
      else if c == ESC then (if esc then Bad else In(d, true))
      else In(d + [if esc then Flip(c) else c], false)
  }

  function ScanOf(w: seq<byte>): Scan {
    if w == [] then Start else Read(ScanOf(Init(w)), Last(w))
  }

  lemma ScanSnoc(w: seq<byte>, c: byte)
    ensures ScanOf(w + [c]) == Read(ScanOf(w), c)
  {
    assert Init(w + [c]) == w && Last(w + [c]) == c;
  }

  predicate ProperPrefix(d: seq<byte>, t: seq<byte>) { |d| < |t| && d == t[..|d|] }

  predicate Unfinished(d: seq<byte>) { ProperPrefix(d, WITH_AC) || ProperPrefix(d, BARE) }

  predicate Finished(d: seq<byte>) { d == WITH_AC || d == BARE }

  /** A byte whose two spellings are both free of flags and escapes. */
  predicate Plain(b: byte) { b != FLAG && b != ESC && Flip(b) != FLAG && Flip(b) != ESC }

  lemma {:induction false} ScanFlags(w: seq<byte>)
    requires w != [] && OnlyFlags(w)
    ensures ScanOf(w) == In([], false)
  {
    assert Last(w) == FLAG;
    if |w| > 1 {
      assert forall i :: 0 <= i < |Init(w)| ==> Init(w)[i] == w[i];
      ScanFlags(Init(w));
    } else {
      assert Init(w) == [];
    }
  }

  lemma FlipTwice(b: byte)
    ensures Flip(Flip(b)) == b
  {
  }

  lemma ScanSpelled(w: seq<byte>, d: seq<byte>, b: byte, escaped: bool)
    requires ScanOf(w) == In(d, false) && Plain(b)
    ensures ScanOf(w + Spelled(b, escaped)) == In(d + [b], false)
  {
    FlipTwice(b);
    hide ScanOf, Flip;
    if escaped {
      ScanSnoc(w, ESC);
      ScanSnoc(w + [ESC], Flip(b));
      assert w + Spelled(b, true) == w + [ESC] + [Flip(b)];
    } else {
      ScanSnoc(w, b);
    }
  }

  /** Every spelling is read back as what it spells. */
  lemma {:induction false} ScanSpelling(lead: seq<byte>, bs: seq<byte>, how: seq<bool>)
    requires lead != [] && OnlyFlags(lead) && |bs| == |how|
    requires forall b :: b in bs ==> Plain(b)
    ensures ScanOf(lead + Spelling(bs, how)) == In(bs, false)
  {
    if bs == [] {
      ScanFlags(lead);
      assert lead + Spelling(bs, how) == lead;
    } else {
      var w := lead + Spelling(Init(bs), Init(how));
      assert lead + Spelling(bs, how) == w + Spelled(Last(bs), Last(how));
      assert bs == Init(bs) + [Last(bs)];
      hide Spelling, Spelled, ScanOf, OnlyFlags, Plain;
      ScanSpelling(lead, Init(bs), Init(how));
      ScanSpelled(w, Init(bs), Last(bs), Last(how));
    }
  }

  lemma TargetsPlain(bs: seq<byte>)
    requires Finished(bs)
    ensures forall b :: b in bs ==> Plain(b)
  {
  }

  /** ... and whatever is read as `d` is a spelling of `d`. */
  lemma {:induction false} SpellingFound(w: seq<byte>) returns (lead: seq<byte>, how: seq<bool>)
    requires w != [] && ScanOf(w).In?
    ensures lead != [] && OnlyFlags(lead) && |how| == |ScanOf(w).decoded|
    ensures w == lead + Spelling(ScanOf(w).decoded, how) + if ScanOf(w).esc then [ESC] else []
    decreases |w|
  {
    hide ScanOf, OnlyFlags, Spelling;
    ScanEmpty();
    var i, c := Init(w), Last(w);
    assert w == i + [c];
    ScanSnoc(i, c);
    if i == [] {
      lead, how := w, [];
      OneFlag(w);
    } else {
      ReadNeverStarts(i);
      lead, how := SpellingFound(i);
      SpellingGrows(i, c, lead, how);
      if c == FLAG {
        lead, how := lead + [FLAG], [];
      } else if c != ESC {
        how := how + [ScanOf(i).esc];
      }
    }
  }

  lemma {:induction false} ReadNeverStarts(w: seq<byte>)
    requires w != []
    ensures ScanOf(w) != Start
  {
    ScanSnoc(Init(w), Last(w));
  }

  lemma OneFlag(w: seq<byte>)
    requires |w| == 1
    ensures w == [FLAG] ==> OnlyFlags(w) && w == w + Spelling([], []) + []
  {
  }

  lemma SpellingSnoc(d: seq<byte>, b: byte, how: seq<bool>, e: bool)
    requires |d| == |how|
    ensures Spelling(d + [b], how + [e]) == Spelling(d, how) + Spelled(b, e)
  {
    assert Init(d + [b]) == d && Init(how + [e]) == how;
  }

  lemma SpellingGrows(i: seq<byte>, c: byte, lead: seq<byte>, how: seq<bool>)
    requires ScanOf(i).In? && ScanOf(i + [c]).In?
    requires lead != [] && OnlyFlags(lead) && |how| == |ScanOf(i).decoded|
    requires i == lead + Spelling(ScanOf(i).decoded, how) + if ScanOf(i).esc then [ESC] else []
    ensures var In(d, e) := ScanOf(i + [c]);
      && (c == FLAG ==> OnlyFlags(lead + [FLAG]) && d == [] && !e && i + [c] == lead + [FLAG] + Spelling(d, []))
      && (c == ESC ==> |how| == |d| && e && i + [c] == lead + Spelling(d, how) + [ESC])
      && (c != FLAG && c != ESC ==> !e && |d| == |how| + 1 && i + [c] == lead + Spelling(d, how + [ScanOf(i).esc]))
  {
    hide ScanOf, Spelling, Spelled, OnlyFlags, Flip;
    ScanSnoc(i, c);
    var d0, e0 := ScanOf(i).decoded, ScanOf(i).esc;
    if c == FLAG {
      LeadGrows(lead, how);
      assert how == [];
    } else if c != ESC {
      var b := if e0 then Flip(c) else c;
      SpellingSnoc(d0, b, how, e0);
      SpelledIs(c, e0);
      assert i + [c] == lead + (Spelling(d0, how) + Spelled(b, e0));
    }
  }

  lemma LeadGrows(lead: seq<byte>, how: seq<bool>)
    requires OnlyFlags(lead)
    ensures OnlyFlags(lead + [FLAG]) && Spelling([], []) == []
  {
  }

  lemma SpelledIs(c: byte, e: bool)
    ensures Spelled(if e then Flip(c) else c, e) == if e then [ESC, c] else [c]
  {
    FlipTwice(c);
  }

  /** A run is a takeover exactly when it is read as a finished request. */
  lemma TakeoverIsFinished(w: seq<byte>)
    ensures Takeover(w) <==> ScanOf(w).In? && Finished(ScanOf(w).decoded) && !ScanOf(w).esc
  {
    hide ScanOf, Spelling, OnlyFlags, Plain;
    if Opens(w, WITH_AC) {
      TargetsPlain(WITH_AC);
      var lead, how :| SpeltAs(w, WITH_AC, lead, how);
      ScanSpelling(lead, WITH_AC, how);
    }
    if Opens(w, BARE) {
      TargetsPlain(BARE);
      var lead, how :| SpeltAs(w, BARE, lead, how);
      ScanSpelling(lead, BARE, how);
    }
    if ScanOf(w).In? && Finished(ScanOf(w).decoded) && !ScanOf(w).esc {
      ScanEmpty();
      var lead, how := SpellingFound(w);
      assert w == lead + Spelling(ScanOf(w).decoded, how);
      assert SpeltAs(w, ScanOf(w).decoded, lead, how);
    }
  }

  /** Reading on only ever adds to what is decoded. */
  lemma {:induction false} ScanExtends(w: seq<byte>, rest: seq<byte>)
    requires ScanOf(w + rest).In? && w != []
    ensures ScanOf(w).In?
    ensures var d, e := ScanOf(w).decoded, ScanOf(w + rest).decoded;
      && |d| <= |e| && d == e[..|d|]
      && (rest != [] && d == e ==> !ScanOf(w).esc && (d != [] ==> ScanOf(w + rest).esc))
  {
    if rest == [] {
      assert w + rest == w;
    } else {
      assert w + rest == (w + Init(rest)) + [Last(rest)];
      ScanSnoc(w + Init(rest), Last(rest));
      ScanExtends(w, Init(rest));
      if Init(rest) == [] { assert w + Init(rest) == w; }
    }
  }

  lemma {:induction false} PlainRest(w: seq<byte>, d: seq<byte>, rest: seq<byte>)
    requires ScanOf(w) == In(d, false) && forall b :: b in rest ==> Plain(b)
    ensures ScanOf(w + rest) == In(d + rest, false)
  {
    if rest == [] {
      assert w + rest == w && d + rest == d;
    } else {
      PlainRest(w, d, Init(rest));
      ScanSpelled(w + Init(rest), d + Init(rest), Last(rest), false);
      assert w + rest == (w + Init(rest)) + [Last(rest)];
      assert d + rest == (d + Init(rest)) + [Last(rest)];
    }
  }

  /** A byte of a request, spelt as the escape before it asks. */
  lemma ReadsNext(w: seq<byte>, d: seq<byte>, e: bool, b: byte)
    requires ScanOf(w) == In(d, e) && Plain(b)
    ensures ScanOf(w + [if e then Flip(b) else b]) == In(d + [b], false)
  {
    hide ScanOf, Flip;
    ScanSnoc(w, if e then Flip(b) else b);
    FlipTwice(b);
    PlainBytes(b);
  }

  lemma Completes(w: seq<byte>, t: seq<byte>) returns (rest: seq<byte>)
    requires ScanOf(w).In? && Finished(t) && ProperPrefix(ScanOf(w).decoded, t)
    ensures rest != [] && Takeover(w + rest)
  {
    hide ScanOf, Plain, Takeover, Flip;
    var In(d, e) := ScanOf(w);
    var b, more := t[|d|], t[|d| + 1..];
    assert t == d + [b] + more;
    TargetsPlain(t);
    assert b in t;
    var first := if e then Flip(b) else b;
    rest := [first] + more;
    ReadsNext(w, d, e, b);
    PlainRest(w + [first], d + [b], more);
    assert w + rest == w + [first] + more;
    TakeoverIsFinished(w + rest);
  }

  lemma PlainBytes(b: byte)
    requires Plain(b)
    ensures b != FLAG && b != ESC && Flip(b) != FLAG && Flip(b) != ESC
  {
  }

  /** A run could still become a takeover exactly when it is read as a proper
      beginning of a request. */
  lemma CandidateIsUnfinished(w: seq<byte>)
    ensures Candidate(w) <==> ScanOf(w).In? && Unfinished(ScanOf(w).decoded)
  {
    hide ScanOf, Takeover;
    if Candidate(w) {
      var rest :| rest != [] && Takeover(w + rest);
      TakeoverIsFinished(w + rest);
      ScanExtends(w, rest);
    }
    if ScanOf(w).In? && Unfinished(ScanOf(w).decoded) {
      ScanEmpty();
      var t := if ProperPrefix(ScanOf(w).decoded, WITH_AC) then WITH_AC else BARE;
      var rest := Completes(w, t);
    }
  }

  lemma ScanEmpty()
    ensures ScanOf([]) == Start
  {
  }

  /** No takeover is the beginning of another: there is nothing to wait for. */
  lemma PrefixFree(w: seq<byte>, rest: seq<byte>)
    requires Takeover(w) && rest != []
    ensures !Takeover(w + rest)
  {
    hide ScanOf;
    TakeoverIsFinished(w);
    TakeoverIsFinished(w + rest);
    assert BARE[0] != WITH_AC[..3][0];
    ScanEmpty();
    if Takeover(w + rest) { ScanExtends(w, rest); }
  }

  // ---------------------------------------------------------------------
  // The arbiter
  // ---------------------------------------------------------------------

  /** A Configure-Request as pppd sends it before anything is agreed, its control
      characters escaped; and one without address, control or escapes. */
  lemma RequestAsSent()
    ensures Takeover([0x7E, 0xFF, 0x7D, 0x23, 0xC0, 0x21, 0x7D, 0x21])
    ensures Takeover([0x7E, 0xC0, 0x21, 0x01])
  {
    var w: seq<byte> := [0x7E, 0xFF, 0x7D, 0x23, 0xC0, 0x21, 0x7D, 0x21];
    var how := [false, true, false, false, true];
    assert Flip(0x03) == 0x23 && Flip(0x01) == 0x21;
    SpellingOfFive(WITH_AC, how);
    assert SpeltAs(w, WITH_AC, [FLAG], how);
    SpellingOfThree(BARE, [false, false, false]);
    assert SpeltAs([0x7E, 0xC0, 0x21, 0x01], BARE, [FLAG], [false, false, false]);
  }

  lemma SpellingOfThree(bs: seq<byte>, how: seq<bool>)
    requires |bs| == |how| == 3
    ensures Spelling(bs, how) == Spelled(bs[0], how[0]) + Spelled(bs[1], how[1]) + Spelled(bs[2], how[2])
  {
    assert Spelling([], []) == [];
    hide Spelling, Spelled;
    var b2, h2 := Init(bs), Init(how);
    var b1, h1 := Init(b2), Init(h2);
    SpellingLast(bs, how);
    SpellingLast(b2, h2);
    SpellingLast(b1, h1);
    assert Init(b1) == [] && Init(h1) == [];
    assert [] + Spelled(bs[0], how[0]) == Spelled(bs[0], how[0]);
  }

  lemma SpellingOfFive(bs: seq<byte>, how: seq<bool>)
    requires |bs| == |how| == 5
    ensures Spelling(bs, how)
         == Spelled(bs[0], how[0]) + Spelled(bs[1], how[1]) + Spelled(bs[2], how[2])
            + Spelled(bs[3], how[3]) + Spelled(bs[4], how[4])
  {
    hide Spelling, Spelled;
    var b4, h4 := Init(bs), Init(how);
    SpellingLast(bs, how);
    SpellingLast(b4, h4);
    SpellingOfThree(Init(b4), Init(h4));
  }

  lemma SpellingLast(bs: seq<byte>, how: seq<bool>)
    requires |bs| == |how| != 0
    ensures Spelling(bs, how) == Spelling(Init(bs), Init(how)) + Spelled(Last(bs), Last(how))
  {
  }

  /** What becomes of `w`, read as `s`. */
  function Verdict(s: Scan, w: seq<byte>, allow: bool, holding: bool): Route {
    if s.In? && Finished(s.decoded) && !s.esc && allow then Route(ToPpp, w, true)
    else if s.In? && Unfinished(s.decoded) && |w| < HOLD_MAX && (allow || holding) then Route(Hold, [], false)
    else Route(ToConsole, w, false)
  }

  lemma FinishedIsNotUnfinished(d: seq<byte>)
    ensures Finished(d) ==> !Unfinished(d)
    ensures Unfinished(d) ==> |d| <= 4
    ensures Unfinished([])
  {
    assert BARE[0] != WITH_AC[..3][0];
  }

  /** PPP takes the port, and all of `w`, exactly when it is allowed and `w` is
      a takeover; `w` is held exactly when it could still become one within the
      buffer (and, for a first byte, when PPP is allowed); otherwise `w` goes to
      the console as it was. */
  ghost predicate Decides(w: seq<byte>, allow: bool, holding: bool, r: Route) {
    && (r.tookOver <==> allow && Takeover(w))
    && (r.sink == ToPpp <==> r.tookOver)
    && (r.sink == Hold <==> (allow || holding) && Candidate(w) && |w| < HOLD_MAX)
    && r.data == (if r.sink == Hold then [] else w)
  }

  lemma VerdictIsLanguage(w: seq<byte>, allow: bool, holding: bool)
    ensures Decides(w, allow, holding, Verdict(ScanOf(w), w, allow, holding))
  {
    TakeoverIsFinished(w);
    CandidateIsUnfinished(w);
    if ScanOf(w).In? { FinishedIsNotUnfinished(ScanOf(w).decoded); }
  }

  lemma VerdictData(s: Scan, w: seq<byte>, allow: bool, holding: bool)
    ensures var r := Verdict(s, w, allow, holding);
      r.data == if r.sink == Hold then [] else w
  {
  }

  lemma Conserved(routed: seq<byte>, held: seq<byte>, c: byte, data: seq<byte>, after: seq<byte>)
    requires (data == [] && after == held + [c]) || (data == held + [c] && after == [])
    ensures routed + held + [c] == routed + data + after
  {
  }

  class Arbiter {
    var owner: Owner
    var allow: bool
    var holding: bool
    var esc: bool
    const held: array<byte>
    var nHeld: nat
    const decoded: array<byte>
    var nDecoded: nat
    var lastByteMs: nat
    var lastFrameMs: nat
    /** Every byte fed, and every byte routed. */
    ghost var fed: seq<byte>
    ghost var routed: seq<byte>

    ghost function Held(): seq<byte>
      reads `holding, `nHeld, held
    {
      if holding && nHeld <= held.Length then held[..nHeld] else []
    }

    /** A held run is read as a beginning, and its decoded bytes are kept. */
    ghost predicate Recogniser()
      reads `owner, `holding, `esc, `nHeld, `nDecoded, held, decoded
    {
      && held.Length == HOLD_MAX + 1 && decoded.Length == 5 && held != decoded
      && (holding ==>
        && owner == Console
        && 1 <= nHeld < HOLD_MAX && nDecoded <= 4
        && ScanOf(held[..nHeld]) == In(decoded[..nDecoded], esc)
        && Unfinished(decoded[..nDecoded]))
    }

    ghost predicate Valid()
      reads this, held, decoded
    {
      Recogniser() && fed == routed + Held()
    }

    constructor (pppAllowed: bool)
      ensures Valid() && owner == Console && allow == pppAllowed && Held() == [] && fed == []
      ensures fresh(held) && fresh(decoded)
    {
      owner, allow := Console, pppAllowed;
      holding, esc := false, false;
      held := new byte[HOLD_MAX + 1];
      decoded := new byte[5];
      nHeld, nDecoded := 0, 0;
      lastByteMs, lastFrameMs := 0, 0;
      fed, routed := [], [];
    }

    /** The operator's switch. What is held stays held, for the byte to come to decide. */
    method AllowPpp(allowed: bool)
      requires Valid()
      modifies this`allow
      ensures Valid() && allow == allowed && Held() == old(Held())
    {
      allow := allowed;
    }

    method Release() returns (r: Route)
      requires nHeld <= held.Length && holding
      modifies this`holding, this`routed
      ensures !holding && r == Route(ToConsole, held[..nHeld], false) && routed == old(routed) + held[..nHeld]
    {
      holding := false;
      routed := routed + held[..nHeld];
      r := Route(ToConsole, held[..nHeld], false);
    }

    /** One byte. While the console owns the port it is decided by the language
        alone, of the bytes held so far and this one. */
    method Feed(c: byte, nowMs: nat) returns (r: Route)
      requires Valid()
      modifies this, held, decoded
      ensures Valid()
      ensures fed == old(fed) + [c] && routed == old(routed) + r.data
      ensures allow == old(allow)
      ensures old(owner) == Ppp ==> r == Route(ToPpp, [c], false) && owner == Ppp && lastFrameMs == old(lastFrameMs)
      ensures old(owner) == Console ==>
        && Decides(old(Held()) + [c], allow, old(holding), r)
        && Held() == (if r.sink == Hold then old(Held()) + [c] else [])
        && owner == (if r.tookOver then Ppp else Console)
        && lastByteMs == nowMs
        && lastFrameMs == (if r.tookOver then nowMs else old(lastFrameMs))
    {
      hide Recogniser, ScanOf, Decides, Verdict, Held;
      HeldNothing();
      ghost var h, before := Held(), routed;
      VerdictIsLanguage(h + [c], allow, holding);
      fed := fed + [c];
      if owner == Ppp {
        routed := routed + [c];
        r := Route(ToPpp, [c], false);
      } else {
        lastByteMs := nowMs;
        r := FeedConsole(c, nowMs);
        VerdictData(ScanOf(h + [c]), h + [c], allow, old(holding));
      }
      Conserved(before, h, c, r.data, Held());
    }

    /** The part of `Feed` for a byte that arrives while the console owns the port. */
    method FeedConsole(c: byte, nowMs: nat) returns (r: Route)
      requires Recogniser() && owner == Console
      modifies `owner, `holding, `esc, `nHeld, `nDecoded, `lastFrameMs, `routed, held, decoded
      ensures Recogniser()
      ensures r == Verdict(ScanOf(old(Held()) + [c]), old(Held()) + [c], allow, old(holding))
      ensures routed == old(routed) + r.data
      ensures owner == if r.tookOver then Ppp else Console
      ensures lastFrameMs == if r.tookOver then nowMs else old(lastFrameMs)
      ensures Held() == if r.sink == Hold then old(Held()) + [c] else []
    {
      hide Recogniser, ScanOf, Verdict, Held;
      HeldNothing();
      if holding {
        r := FeedHeld(c, nowMs);
      } else {
        assert Held() + [c] == [c];
        r := FeedFirst(c);
      }
    }

    lemma HeldNothing()
      requires Recogniser()
      ensures owner == Ppp ==> !holding
      ensures !holding ==> Held() == []
    {
    }

    /** The part of `Feed` for a byte that finds nothing held. */
    method FeedFirst(c: byte) returns (r: Route)
      requires Recogniser() && owner == Console && !holding
      modifies `holding, `esc, `nHeld, `nDecoded, `routed, held
      ensures Recogniser() && r == Verdict(ScanOf([c]), [c], allow, false)
      ensures routed == old(routed) + r.data
      ensures Held() == (if r.sink == Hold then [c] else []) && !r.tookOver
    {
      FirstByte(c);
      FinishedIsNotUnfinished([]);
      hide ScanOf, Finished, Unfinished;
      if c == FLAG && allow {
        holding := true; nHeld := 0; nDecoded := 0; esc := false;
        HoldByte(c);
        assert held[..nHeld] == [c] && decoded[..nDecoded] == [];
        r := Route(Hold, [], false);
      } else {
        routed := routed + [c];
        r := Route(ToConsole, [c], false);
      }
    }

    method HoldByte(c: byte)
      requires nHeld < held.Length
      modifies `nHeld, held
      ensures nHeld == old(nHeld) + 1 && held[..nHeld] == old(held[..nHeld]) + [c]
    {
      held[nHeld] := c; nHeld := nHeld + 1;
    }

    method KeepDecoded(b: byte)
      requires nDecoded < decoded.Length
      modifies `nDecoded, decoded
      ensures nDecoded == old(nDecoded) + 1 && decoded[..nDecoded] == old(decoded[..nDecoded]) + [b]
    {
      decoded[nDecoded] := b; nDecoded := nDecoded + 1;
    }

    /** The part of `Feed` that adds to a held candidate. */
    method FeedHeld(c: byte, nowMs: nat) returns (r: Route)
      requires Recogniser() && holding
      modifies `owner, `holding, `esc, `nHeld, `nDecoded, `lastFrameMs, `routed, held, decoded
      ensures Recogniser()
      ensures r == Verdict(ScanOf(old(Held()) + [c]), old(Held()) + [c], allow, true)
      ensures routed == old(routed) + r.data
      ensures owner == if r.tookOver then Ppp else Console
      ensures lastFrameMs == if r.tookOver then nowMs else old(lastFrameMs)
      ensures Held() == if r.sink == Hold then old(Held()) + [c] else []
    {
      hide ScanOf, Finished, Unfinished, Flip, PrefixOk, Complete;
      ScanSnoc(held[..nHeld], c);
      FinishedIsNotUnfinished(decoded[..nDecoded]);
      FinishedIsNotUnfinished([]);
      HoldByte(c);
      if c == FLAG {
        assert nDecoded == 0 ==> decoded[..nDecoded] == [];
        r := Keep(nDecoded > 0 || esc);
      } else if c == ESC {
        var again := esc;
        esc := true;
        r := Keep(again);
      } else {
        KeepDecoded(if esc then Flip(c) else c);
        esc := false;
        TestsSay();
        if PrefixOk() && Complete() && allow {
          r := TakeOver(nowMs);
        } else {
          r := Keep(!PrefixOk() || Complete());
        }
      }
    }

    /** What the two tests after a decoded byte tell apart. */
    lemma TestsSay()
      requires 1 <= nDecoded <= decoded.Length == 5
      ensures PrefixOk() <==> Unfinished(decoded[..nDecoded]) || Finished(decoded[..nDecoded])
      ensures PrefixOk() ==> (Complete() <==> Finished(decoded[..nDecoded]))
      ensures Unfinished(decoded[..nDecoded]) ==> nDecoded <= 4 && !Finished(decoded[..nDecoded])
    {
      DecodedSays(decoded[..nDecoded]);
    }

    /** Holds on, unless the run is known not to be one or the buffer is full. */
    method Keep(giveUp: bool) returns (r: Route)
      requires nHeld <= held.Length && holding
      modifies `holding, `routed
      ensures holding <==> !giveUp && nHeld < HOLD_MAX
      ensures r == if holding then Route(Hold, [], false) else Route(ToConsole, held[..nHeld], false)
      ensures routed == old(routed) + r.data
    {
      if !giveUp && nHeld < HOLD_MAX { r := Route(Hold, [], false); } else { r := Release(); }
    }

    method TakeOver(nowMs: nat) returns (r: Route)
      requires nHeld <= held.Length
      modifies `owner, `holding, `lastFrameMs, `routed
      ensures owner == Ppp && !holding && lastFrameMs == nowMs
      ensures r == Route(ToPpp, held[..nHeld], true) && routed == old(routed) + r.data
    {
      owner := Ppp;
      holding := false;
      lastFrameMs := nowMs;
      routed := routed + held[..nHeld];
      r := Route(ToPpp, held[..nHeld], true);
    }

    predicate PrefixOk()
      requires nDecoded <= decoded.Length
      reads this, decoded
    {
      PrefixOf(decoded[..nDecoded], WITH_AC) || PrefixOf(decoded[..nDecoded], BARE)
    }

    predicate Complete()
      requires 1 <= nDecoded <= decoded.Length
      reads this, decoded
    {
      (nDecoded == 5 && decoded[0] == 0xFF) || (nDecoded == 3 && decoded[0] == 0xC0)
    }

    /** Nothing received lately: a candidate the port went quiet on is released. */
    method Idle(nowMs: nat) returns (r: Route)
      requires Valid()
      modifies `holding, `routed
      ensures Valid() && fed == old(fed) && routed == old(routed) + r.data
      ensures r == if old(holding) && Gap(nowMs, lastByteMs) > HOLD_IDLE_MS
                   then Route(ToConsole, old(Held()), false) else Route(Hold, [], false)
      ensures Held() == if r.sink == ToConsole then [] else old(Held())
    {
      hide ScanOf, Unfinished;
      if owner == Console && holding && Gap(nowMs, lastByteMs) > HOLD_IDLE_MS {
        r := Release();
      } else {
        r := Route(Hold, [], false);
      }
    }

    /** A flag among the bytes PPP receives is a frame, and proof of a host. */
    method PppReceived(data: seq<byte>, nowMs: nat)
      requires Valid()
      modifies `lastFrameMs
      ensures Valid()
      ensures lastFrameMs == if owner == Ppp && FLAG in data then nowMs else old(lastFrameMs)
    {
      hide ScanOf, Unfinished;
      if owner == Ppp && FLAG in data { lastFrameMs := nowMs; }
    }

    /** No frame from the host for half a minute. */
    predicate PppIdleDead(nowMs: nat)
      reads this
    {
      owner == Ppp && Gap(nowMs, lastFrameMs) > IDLE_DEAD_MS
    }

    /** True when the port changed hands; a candidate held by the console is
        not touched. */
    method PppDown() returns (changed: bool)
      requires Valid()
      modifies `owner, `holding, `nHeld
      ensures Valid() && owner == Console && Held() == old(Held()) && fed == old(fed)
      ensures changed <==> old(owner) == Ppp
    {
      hide ScanOf, Unfinished;
      if owner != Ppp { return false; }
      owner := Console;
      holding := false;
      nHeld := 0;
      changed := true;
    }

    /** Every takeover of at most sixteen bytes that arrives with nothing held,
        PPP allowed and no idle release between its bytes takes the port at its
        last byte and is handed to PPP whole. */
    method FeedWord(w: seq<byte>, nowMs: nat) returns (r: Route)
      requires Valid() && owner == Console && !holding && allow
      requires Takeover(w) && |w| <= HOLD_MAX
      modifies this, held, decoded
      ensures Valid() && owner == Ppp
      ensures r == Route(ToPpp, w, true)
    {
      hide Recogniser, Held, Decides, Takeover;
      HeldNothing();
      NotEmpty(w);
      r := Route(Hold, [], false);
      var i := 0;
      while i < |w|
        invariant 0 <= i <= |w| && Valid() && allow
        invariant i < |w| ==> owner == Console && Held() == w[..i]
        invariant i == |w| ==> owner == Ppp && r == Route(ToPpp, w, true)
      {
        ghost var h := holding;
        assert w[..i] + [w[i]] == w[..i + 1];
        r := Feed(w[i], nowMs);
        DecidesWord(w, i, h, r);
        i := i + 1;
      }
    }
  }

  /** On a wrapping clock a quiet session reads as dead exactly when it is, unless it
      has been quiet for a turn of the clock and come round to short of the limit. */
  lemma IdleDeadIff(a: Arbiter, now: nat, last: nat)
    requires last <= now && a.owner == Ppp && a.lastFrameMs == Wrap(last)
    ensures (a.PppIdleDead(Wrap(now)) <==> now - last > IDLE_DEAD_MS)
       <==> !(Wrap(now - last) <= IDLE_DEAD_MS < now - last)
  {
    hide Wrap, Gap;
    WrappedGap(now, last);
    WrapIsLess(now - last);
  }

  lemma WrapIsLess(d: nat)
    ensures Wrap(d) <= d
  {
  }

  lemma NotEmpty(w: seq<byte>)
    requires Takeover(w)
    ensures w != []
  {
    TakeoverIsFinished(w);
    ScanEmpty();
  }

  lemma DecidesWord(w: seq<byte>, i: nat, holding: bool, r: Route)
    requires Takeover(w) && i < |w| <= HOLD_MAX && Decides(w[..i + 1], true, holding, r)
    ensures i + 1 < |w| ==> r.sink == Hold && !r.tookOver
    ensures i + 1 == |w| ==> r == Route(ToPpp, w, true)
  {
    hide Takeover, Candidate;
    if i + 1 < |w| { BeginningIsCandidate(w, i + 1); } else { assert w[..i + 1] == w; }
  }

  predicate PrefixOf(d: seq<byte>, s: seq<byte>) { |d| <= |s| && d == s[..|d|] }

  /** What the two tests after each decoded byte tell apart. */
  lemma DecodedSays(d: seq<byte>)
    requires 1 <= |d| <= 5
    ensures (PrefixOf(d, WITH_AC) || PrefixOf(d, BARE)) <==> Unfinished(d) || Finished(d)
    ensures PrefixOf(d, WITH_AC) || PrefixOf(d, BARE) ==>
      (((|d| == 5 && d[0] == 0xFF) || (|d| == 3 && d[0] == 0xC0)) <==> Finished(d))
    ensures Finished(d) ==> !Unfinished(d)
    ensures Unfinished(d) ==> |d| <= 4
  {
    FinishedIsNotUnfinished(d);
  }

  lemma BeginningIsCandidate(w: seq<byte>, i: nat)
    requires Takeover(w) && 0 < i < |w|
    ensures Candidate(w[..i]) && !Takeover(w[..i])
  {
    assert w[..i] + w[i..] == w;
    if Takeover(w[..i]) { PrefixFree(w[..i], w[i..]); }
  }

  lemma FirstByte(c: byte)
    ensures ScanOf([c]) == Read(Start, c)
    ensures ScanOf([]) == Start
  {
    ScanSnoc([], c);
    assert [] + [c] == [c];
  }
}
