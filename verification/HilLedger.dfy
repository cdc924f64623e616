/** The ledger of tools/hil_frames.py and the loop that resumes from it: one JSON
    object to a line, appended and flushed frame by frame, and a run that can be
    cut short at any moment, the middle of a line included.

    A line is the fragments written to it. It is read back only if it is one whole
    object and nothing else: a proper beginning of an object lacks its closing
    brace, whatever follows it on the line. */
module HilLedger {
  import opened Bytes
  import opened HilSchedule

  datatype Result = Ok | Miss | Extra | NoTx | NodeTx

  datatype Row = Row(point: nat, arm: Arm, seqNo: nat, result: Result)

  datatype Object = Header | Frame(rec: Row)

  datatype Fragment = Part | Whole(obj: Object)

  type Line = seq<Fragment>

  /** The lines that end in a newline, and what stands after the last of them. */
  datatype File = File(lines: seq<Line>, tail: Line)

  const EMPTY: File := File([], [])

  // ---------------------------------------------------------------------
  // What a file says
  // ---------------------------------------------------------------------

  function OfLine(line: Line): seq<Row> {
    if |line| == 1 && line[0].Whole? && line[0].obj.Frame? then [line[0].obj.rec] else []
  }

  function OfLines(lines: seq<Line>): seq<Row> {
    if lines == [] then [] else OfLines(Init(lines)) + OfLine(Last(lines))
  }

  /** The frames `load` finds, the last line with or without its newline. */
  function Loaded(f: File): seq<Row> { OfLines(f.lines) + OfLine(f.tail) }

  function Appended(f: File, obj: Object): File { File(f.lines + [f.tail + [Whole(obj)]], []) }

  /** How far a write got: not begun, part of the object, all of it but the newline. */
  datatype Reach = Nothing | Half | NoNewline

  function CutShort(f: File, obj: Object, reach: Reach): File {
    match reach
    case Nothing => f
    case Half => f.(tail := f.tail + [Part])
    case NoNewline => f.(tail := f.tail + [Whole(obj)])
  }

  lemma OfLinesSnoc(lines: seq<Line>, line: Line)
    ensures OfLines(lines + [line]) == OfLines(lines) + OfLine(line)
  {
    assert Init(lines + [line]) == lines;
  }

  /** What an append does to what can be read: the new frame is there, if the file
      ended with its line; if not, it is lost with whatever it was joined to. */
  lemma AppendedReads(f: File, rec: Row)
    ensures Loaded(Appended(f, Frame(rec))) == OfLines(f.lines) + if f.tail == [] then [rec] else []
  {
    OfLinesSnoc(f.lines, f.tail + [Whole(Frame(rec))]);
  }

  lemma HeaderReads(f: File)
    ensures Loaded(Appended(f, Header)) == OfLines(f.lines)
  {
    OfLinesSnoc(f.lines, f.tail + [Whole(Header)]);
  }

  lemma CutShortReads(f: File, rec: Row, reach: Reach)
    ensures var g := CutShort(f, Frame(rec), reach);
      match reach
      case Nothing => g == f
      case Half => g.lines == f.lines && g.tail != [] && Loaded(g) == OfLines(f.lines)
      case NoNewline =>
        && g.lines == f.lines && g.tail != []
        && Loaded(g) == OfLines(f.lines) + if f.tail == [] then [rec] else []
  {
  }

  /** The file with a list of frames appended to it, one after another. */
  function AppendAll(f: File, rows: seq<Row>): File {
    if rows == [] then f else Appended(AppendAll(f, Init(rows)), Frame(Last(rows)))
  }

  lemma NoneAppended(f: File)
    ensures AppendAll(f, []) == f
  {
  }

  lemma AppendAllSnoc(f: File, rows: seq<Row>, rec: Row)
    ensures AppendAll(f, rows + [rec]) == Appended(AppendAll(f, rows), Frame(rec))
  {
    assert Init(rows + [rec]) == rows;
  }

  lemma {:induction false} AppendAllMore(f: File, rows: seq<Row>, more: seq<Row>)
    ensures AppendAll(AppendAll(f, rows), more) == AppendAll(f, rows + more)
  {
    if more == [] {
      assert rows + more == rows;
    } else {
      AppendAllMore(f, rows, Init(more));
      AppendAllSnoc(f, rows + Init(more), Last(more));
      assert rows + more == (rows + Init(more)) + [Last(more)];
    }
  }

  /** A file with nothing in it gets its header. */
  function Opened(f: File): File { if f == EMPTY then Appended(EMPTY, Header) else f }

  /** What appends cost a file: the half line it ended with, and the first of them. */
  function Lost(f: File, rows: seq<Row>): seq<Row> {
    if f.tail == [] || rows == [] then [] else OfLine(f.tail) + [rows[0]]
  }

  /** All but the first of the appends can be read back, and the first too if the
      file ended with its line. */
  lemma {:induction false} AppendAllReads(f: File, rows: seq<Row>)
    requires rows != []
    ensures AppendAll(f, rows).tail == []
    ensures Loaded(AppendAll(f, rows)) == OfLines(f.lines) + if f.tail == [] then rows else rows[1..]
  {
    hide OfLines, OfLine;
    var g := AppendAll(f, Init(rows));
    if Init(rows) == [] {
      AppendedReads(f, rows[0]);
      assert rows == [rows[0]];
    } else {
      AppendAllReads(f, Init(rows));
      AppendedReads(g, Last(rows));
      EmptyLine();
      assert OfLines(g.lines) + [] == OfLines(g.lines);
      assert rows == Init(rows) + [Last(rows)] && rows[1..] == Init(rows)[1..] + [Last(rows)];
    }
  }

  /** A frame recorded can be read back exactly when the file ended with its line:
      the first frame after an interrupted write is lost as well, and only it. */
  lemma RecordIsKeptIff(f: File, rec: Row, next: Row)
    requires rec !in OfLines(f.lines)
    ensures rec in Loaded(Appended(f, Frame(rec))) <==> f.tail == []
    ensures next in Loaded(Appended(Appended(f, Frame(rec)), Frame(next)))
  {
    AppendedReads(f, rec);
    AppendedReads(Appended(f, Frame(rec)), next);
  }

  /** A frame whose newline alone was cut off is read when the run is resumed, and
      gone the time after that, with the next one. */
  lemma OneInterruptLosesTwo(f: File, last: Row, next: Row)
    requires f.tail == [] && last !in OfLines(f.lines) && next !in OfLines(f.lines)
    ensures var g := CutShort(f, Frame(last), NoNewline);
      && last in Loaded(g)
      && last !in Loaded(Appended(g, Frame(next))) && next !in Loaded(Appended(g, Frame(next)))
  {
    AppendedReads(CutShort(f, Frame(last), NoNewline), next);
  }

  // ---------------------------------------------------------------------
  // Steps attempted
  // ---------------------------------------------------------------------

  /** Two records of one step. */
  predicate Same(a: Row, b: Row) { a.point == b.point && a.arm == b.arm && a.seqNo == b.seqNo }

  predicate Distinct(recs: seq<Row>) { forall i, j :: 0 <= i < j < |recs| ==> !Same(recs[i], recs[j]) }

  /** Everything the one has, the other has too. */
  predicate Within(some: seq<Row>, all: seq<Row>) { forall r :: r in some ==> r in all }

  predicate Has(recs: seq<Row>, point: nat, step: Step) {
    exists i :: 0 <= i < |recs| && recs[i].point == point && recs[i].arm == step.arm && recs[i].seqNo == step.seqNo
  }

  /** `done`: the sequence numbers already attempted for one channel and arm. */
  function Done(recs: seq<Row>, point: nat, arm: Arm): set<nat> {
    set r | r in recs && r.point == point && r.arm == arm :: r.seqNo
  }

  lemma DoneIsHas(recs: seq<Row>, point: nat, step: Step)
    ensures step.seqNo in Done(recs, point, step.arm) <==> Has(recs, point, step)
  {
    if step.seqNo in Done(recs, point, step.arm) {
      var r :| r in recs && r.point == point && r.arm == step.arm && r.seqNo == step.seqNo;
      var i :| 0 <= i < |recs| && recs[i] == r;
    }
  }

  lemma DistinctSnoc(recs: seq<Row>, rec: Row)
    requires Distinct(recs) && !Has(recs, rec.point, Step(rec.arm, rec.seqNo))
    ensures Distinct(recs + [rec])
  {
  }

  lemma HasSnoc(recs: seq<Row>, rec: Row, point: nat, step: Step)
    ensures Has(recs + [rec], point, step)
       <==> Has(recs, point, step) || (rec.point == point && rec.arm == step.arm && rec.seqNo == step.seqNo)
  {
    if Has(recs, point, step) {
      var i :| 0 <= i < |recs| && recs[i].point == point && recs[i].arm == step.arm && recs[i].seqNo == step.seqNo;
      assert (recs + [rec])[i] == recs[i];
    }
    assert (recs + [rec])[|recs|] == rec;
  }

  lemma HasWithin(some: seq<Row>, all: seq<Row>, point: nat, step: Step)
    requires Within(some, all)
    ensures Has(some, point, step) ==> Has(all, point, step)
  {
    if Has(some, point, step) {
      var i :| 0 <= i < |some| && some[i].point == point && some[i].arm == step.arm && some[i].seqNo == step.seqNo;
      assert some[i] in all;
    }
  }

  lemma DistinctPrefix(recs: seq<Row>, more: seq<Row>)
    requires Distinct(recs + more)
    ensures Distinct(recs)
  {
    forall i, j | 0 <= i < j < |recs|
      ensures !Same(recs[i], recs[j])
    {
      assert recs[i] == (recs + more)[i] && recs[j] == (recs + more)[j];
    }
  }

  /** In the file no step is twice, and all of it is in memory. */
  predicate Reflects(f: File, recs: seq<Row>) { Distinct(recs) && Distinct(Loaded(f)) && Within(Loaded(f), recs) }

  lemma RecordReflects(f: File, recs: seq<Row>, rec: Row)
    requires Reflects(f, recs) && !Has(recs, rec.point, Step(rec.arm, rec.seqNo))
    ensures Reflects(Appended(f, Frame(rec)), recs + [rec])
  {
    hide Has, Same, OfLines, OfLine;
    AppendedReads(f, rec);
    DistinctSnoc(recs, rec);
    HasWithin(Loaded(f), recs, rec.point, Step(rec.arm, rec.seqNo));
    DistinctPrefix(OfLines(f.lines), OfLine(f.tail));
    if f.tail == [] {
      EmptyLine();
      assert Loaded(f) == OfLines(f.lines);
      DistinctSnoc(OfLines(f.lines), rec);
    } else {
      assert OfLines(f.lines) + [] == OfLines(f.lines);
    }
  }

  lemma EmptyLine()
    ensures OfLine([]) == []
  {
  }

  /** Of everything read from a file and then appended to it, exactly what the half
      line at its end took with it cannot be read back. */
  lemma LackedIff(f: File, rows: seq<Row>, rec: Row)
    requires Distinct(Loaded(f) + rows) && rec in Loaded(f) + rows
    ensures rec !in Loaded(AppendAll(f, rows)) <==> rec in Lost(f, rows)
  {
    hide OfLines, OfLine, AppendAll, Same;
    if rows != [] {
      AppendAllReads(f, rows);
      EmptyLine();
      assert rows == [rows[0]] + rows[1..];
      if f.tail != [] {
        assert Loaded(f) + rows == OfLines(f.lines) + (OfLine(f.tail) + [rows[0]]) + rows[1..];
        Apart(OfLines(f.lines), OfLine(f.tail) + [rows[0]], rows[1..], rec);
      }
    } else {
      assert Loaded(f) + rows == Loaded(f);
      NoneAppended(f);
    }
  }

  lemma Apart(a: seq<Row>, b: seq<Row>, c: seq<Row>, rec: Row)
    requires Distinct(a + b + c)
    ensures rec in b ==> rec !in a && rec !in c
  {
    var all := a + b + c;
    if rec in b {
      var j :| 0 <= j < |b| && b[j] == rec;
      assert all[|a| + j] == rec;
      assert forall i :: 0 <= i < |a| ==> all[i] == a[i];
      assert forall i :: 0 <= i < |c| ==> all[|a| + |b| + i] == c[i];
    }
  }

  lemma HeaderReflects(f: File, recs: seq<Row>)
    requires Reflects(f, recs)
    ensures Reflects(Appended(f, Header), recs)
  {
    hide Same, OfLines, OfLine;
    HeaderReads(f);
    DistinctPrefix(OfLines(f.lines), OfLine(f.tail));
  }

  /** The records that cannot be read from the file are those of a list. */
  predicate Lacks(f: File, recs: seq<Row>, lost: seq<Row>) {
    forall r :: r in recs ==> (r !in Loaded(f) <==> r in lost)
  }

  /** Wherever the write stopped, the file still has no step twice. */
  lemma CutShortStaysDistinct(f: File, recs: seq<Row>, rec: Row, reach: Reach)
    requires Reflects(f, recs) && !Has(recs, rec.point, Step(rec.arm, rec.seqNo))
    ensures Distinct(Loaded(CutShort(f, Frame(rec), reach)))
  {
    hide Has, Same, OfLines, OfLine;
    EmptyLine();
    assert OfLines(f.lines) + [] == OfLines(f.lines);
    CutShortReads(f, rec, reach);
    HasWithin(Loaded(f), recs, rec.point, Step(rec.arm, rec.seqNo));
    DistinctPrefix(OfLines(f.lines), OfLine(f.tail));
    DistinctSnoc(Loaded(f), rec);
  }

  lemma HeaderCutReads(reach: Reach)
    ensures Loaded(CutShort(EMPTY, Header, reach)) == []
  {
  }

  // ---------------------------------------------------------------------
  // Loss accounting
  // ---------------------------------------------------------------------

  function Count(recs: seq<Row>, point: nat, arm: Arm, result: Result): nat {
    if recs == [] then 0
    else
      Count(Init(recs), point, arm, result)
      + if Last(recs).point == point && Last(recs).arm == arm && Last(recs).result == result then 1 else 0
  }

  function Rows(recs: seq<Row>, point: nat, arm: Arm): seq<Row> {
    if recs == [] then []
    else
      Rows(Init(recs), point, arm)
      + if Last(recs).point == point && Last(recs).arm == arm then [Last(recs)] else []
  }

  datatype Tally = Tally(attempted: nat, sent: nat, received: nat, missed: nat, noTx: nat, nodeTx: nat)

  function TallyOf(recs: seq<Row>, point: nat, arm: Arm): Tally {
    var ok := Count(recs, point, arm, Ok);
    var miss := Count(recs, point, arm, Miss);
    var extra := Count(recs, point, arm, Extra);
    Tally(|Rows(recs, point, arm)|, ok + miss + extra, ok + extra, miss,
          Count(recs, point, arm, NoTx), Count(recs, point, arm, NodeTx))
  }

  /** Every window attempted was put to the link or excluded, and every one put to
      it was received or missed. */
  lemma {:induction false} TallyAddsUp(recs: seq<Row>, point: nat, arm: Arm)
    ensures var t := TallyOf(recs, point, arm);
      t.attempted == t.sent + t.noTx + t.nodeTx && t.sent == t.received + t.missed
  {
    if recs != [] { TallyAddsUp(Init(recs), point, arm); }
  }

  /** What one record more adds to a channel's and arm's account: one received, one
      missed, one of the exclusions, and nothing if it is not theirs. */
  lemma TallyGains(recs: seq<Row>, r: Row, point: nat, arm: Arm)
    ensures var was, now := TallyOf(recs, point, arm), TallyOf(recs + [r], point, arm);
      if r.point != point || r.arm != arm then now == was
      else
        var put := was.(attempted := was.attempted + 1, sent := was.sent + 1);
        match r.result
        case Ok => now == put.(received := was.received + 1)
        case Extra => now == put.(received := was.received + 1)
        case Miss => now == put.(missed := was.missed + 1)
        case NoTx => now == was.(attempted := was.attempted + 1, noTx := was.noTx + 1)
        case NodeTx => now == was.(attempted := was.attempted + 1, nodeTx := was.nodeTx + 1)
    ensures TallyOf([], point, arm) == Tally(0, 0, 0, 0, 0, 0)
  {
    assert Init(recs + [r]) == recs;
  }

  lemma LastIsNew(recs: seq<Row>)
    requires Distinct(recs) && recs != []
    ensures Last(recs).seqNo !in Done(Init(recs), Last(recs).point, Last(recs).arm)
  {
    DoneIsHas(Init(recs), Last(recs).point, Step(Last(recs).arm, Last(recs).seqNo));
  }

  lemma DoneLast(recs: seq<Row>, point: nat, arm: Arm)
    requires recs != []
    ensures var r := Last(recs);
      Done(recs, point, arm)
      == Done(Init(recs), point, arm) + if r.point == point && r.arm == arm then {r.seqNo} else {}
  {
    assert forall r :: r in recs <==> r in Init(recs) || r == Last(recs) by {
      assert recs == Init(recs) + [Last(recs)];
    }
  }

  lemma DistinctInit(recs: seq<Row>)
    requires Distinct(recs) && recs != []
    ensures Distinct(Init(recs))
  {
  }

  /** With no step twice, as many windows were attempted as there are steps done. */
  lemma {:induction false} AttemptedIsDone(recs: seq<Row>, point: nat, arm: Arm)
    requires Distinct(recs)
    ensures |Rows(recs, point, arm)| == |Done(recs, point, arm)|
  {
    hide Distinct, Done;
    if recs == [] {
      NoneDone(point, arm);
    } else {
      DistinctInit(recs);
      AttemptedIsDone(Init(recs), point, arm);
      DoneLast(recs, point, arm);
      LastIsNew(recs);
    }
  }

  lemma NoneDone(point: nat, arm: Arm)
    ensures Done([], point, arm) == {}
  {
  }

  lemma {:induction false} CountUpTo(frames: nat, s: set<nat>)
    requires forall n: nat :: n in s <==> n < frames
    ensures |s| == frames
  {
    if frames > 0 {
      CountUpTo(frames - 1, s - {frames - 1});
    } else {
      assert s == {};
    }
  }

  // ---------------------------------------------------------------------
  // The ledger
  // ---------------------------------------------------------------------

  class Ledger {
    var file: File
    var records: seq<Row>

    ghost predicate Valid()
      reads this
    {
      Reflects(file, records)
    }

    constructor (file: File)
      ensures this.file == file && records == []
    {
      this.file, records := file, [];
    }

    /** Every line that parses, in order; one that does not is passed over. */
    method Load()
      requires records == []
      modifies `records
      ensures records == Loaded(file)
    {
      hide OfLine;
      for i := 0 to |file.lines|
        invariant records == OfLines(file.lines[..i])
      {
        OfLinesSnoc(file.lines[..i], file.lines[i]);
        assert file.lines[..i + 1] == file.lines[..i] + [file.lines[i]];
        records := records + OfLine(file.lines[i]);
      }
      assert file.lines[..|file.lines|] == file.lines;
      records := records + OfLine(file.tail);
    }

    /** The header is written into an empty file and into no other. */
    method Open()
      requires Valid()
      modifies `file
      ensures Valid() && file == Opened(old(file)) && Loaded(file) == Loaded(old(file))
      ensures old(file) == EMPTY ==> file == File([[Whole(Header)]], [])
      ensures old(file) != EMPTY ==> file == old(file)
    {
      if file.lines == [] && file.tail == [] {
        HeaderReflects(file, records);
        HeaderReads(file);
        assert EMPTY.tail + [Whole(Header)] == [Whole(Header)];
        file := Appended(file, Header);
      }
    }

    method Record(point: nat, arm: Arm, seqNo: nat, result: Result)
      requires Valid() && !Has(records, point, Step(arm, seqNo))
      modifies this
      ensures Valid()
      ensures records == old(records) + [Row(point, arm, seqNo, result)]
      ensures file == Appended(old(file), Frame(Row(point, arm, seqNo, result)))
    {
      var rec := Row(point, arm, seqNo, result);
      RecordReflects(file, records, rec);
      records := records + [rec];
      file := Appended(file, Frame(rec));
    }

    /** The interrupt that comes while a frame is written, or just before. What is
        left is the file. */
    method Interrupt(rec: Row, reach: Reach)
      requires Valid() && !Has(records, rec.point, Step(rec.arm, rec.seqNo))
      modifies `file
      ensures Distinct(Loaded(file)) && file == CutShort(old(file), Frame(rec), reach)
      ensures Within(Loaded(file), records + [rec])
    {
      CutShortStaysDistinct(file, records, rec, reach);
      CutShortReads(file, rec, reach);
      file := CutShort(file, Frame(rec), reach);
    }
  }

  // ---------------------------------------------------------------------
  // Runs
  // ---------------------------------------------------------------------

  datatype Channel = Channel(point: nat, frames: int, block: int)

  /** What the world does in one run: which channels it finds quiet, what each window
      comes to, and where the run is cut short if it is. */
  datatype Run = Run(quiet: nat -> bool, world: (nat, Step) -> Result, stop: Option<Stop>)

  /** When a run is cut short, and how far the line got: the header's, or that of a
      step of a channel's list. */
  datatype Stop = AtHeader(reach: Reach) | At(channel: nat, step: nat, reach: Reach)

  /** No frame of a channel is beyond the number it is to have. */
  predicate Planned(recs: seq<Row>, c: Channel) {
    forall i :: 0 <= i < |recs| && recs[i].point == c.point ==> recs[i].seqNo < c.frames
  }

  predicate AllPlanned(recs: seq<Row>, plan: seq<Channel>) {
    forall k :: 0 <= k < |plan| ==> Planned(recs, plan[k])
  }

  predicate OnePointEach(plan: seq<Channel>) {
    forall j, k :: 0 <= j < k < |plan| ==> plan[j].point != plan[k].point
  }

  /** Every step of a channel has a record. */
  ghost predicate AllDone(recs: seq<Row>, c: Channel) {
    forall arm, n: nat :: n < c.frames ==> Has(recs, c.point, Step(arm, n))
  }

  lemma PlannedSnoc(recs: seq<Row>, rec: Row, c: Channel)
    requires Planned(recs, c) && (rec.point == c.point ==> rec.seqNo < c.frames)
    ensures Planned(recs + [rec], c)
  {
  }

  lemma PlannedWithin(some: seq<Row>, all: seq<Row>, c: Channel)
    requires Within(some, all) && Planned(all, c)
    ensures Planned(some, c)
  {
    forall i | 0 <= i < |some| && some[i].point == c.point
      ensures some[i].seqNo < c.frames
    {
      assert some[i] in all;
    }
  }

  lemma HasPrefix(recs: seq<Row>, more: seq<Row>, point: nat, step: Step)
    requires recs <= more && Has(recs, point, step)
    ensures Has(more, point, step)
  {
    var i :| 0 <= i < |recs| && recs[i].point == point && recs[i].arm == step.arm && recs[i].seqNo == step.seqNo;
    assert more[i] == recs[i];
  }

  /** The records of a step list up to a place in it, on top of those there were. */
  ghost predicate DoneTo(was: seq<Row>, now: seq<Row>, point: nat, steps: seq<Step>) {
    && was <= now
    && forall step :: Has(now, point, step) <==> Has(was, point, step) || step in steps
  }

  lemma DoneToSkips(was: seq<Row>, now: seq<Row>, point: nat, steps: seq<Step>, step: Step)
    requires DoneTo(was, now, point, steps) && Has(was, point, step)
    ensures DoneTo(was, now, point, steps + [step])
  {
  }

  lemma DoneToRecords(was: seq<Row>, now: seq<Row>, point: nat, steps: seq<Step>, step: Step, result: Result)
    requires DoneTo(was, now, point, steps)
    ensures DoneTo(was, now + [Row(point, step.arm, step.seqNo, result)], point, steps + [step])
  {
    forall s: Step
      ensures Has(now + [Row(point, step.arm, step.seqNo, result)], point, s)
         <==> Has(was, point, s) || s in steps + [step]
    {
      HasSnoc(now, Row(point, step.arm, step.seqNo, result), point, s);
    }
  }

  /** The step to come is not in the list before it. */
  lemma NotBefore(steps: seq<Step>, frames: int, i: nat)
    requires Complete(steps, frames) && frames >= 0 && i < |steps|
    ensures steps[i] !in steps[..i] && steps[i].seqNo < frames
  {
    CompleteHolds(steps, frames, steps[i].arm, steps[i].seqNo);
  }

  lemma ListIsDone(was: seq<Row>, now: seq<Row>, c: Channel, steps: seq<Step>)
    requires DoneTo(was, now, c.point, steps) && Complete(steps, c.frames)
    ensures AllDone(now, c)
  {
    forall arm, n: nat | n < c.frames
      ensures Has(now, c.point, Step(arm, n))
    {
      CompleteHolds(steps, c.frames, arm, n);
    }
  }

  lemma NoFramesNoSteps(steps: seq<Step>, frames: int)
    requires Complete(steps, frames) && frames <= 0
    ensures steps == []
  {
    if steps != [] {
      var at := PlaceInArm(steps, 0);
    }
  }

  lemma AllPlannedWithin(some: seq<Row>, all: seq<Row>)
    requires Within(some, all)
    ensures forall d :: Planned(all, d) ==> Planned(some, d)
  {
    forall d | Planned(all, d)
      ensures Planned(some, d)
    {
      PlannedWithin(some, all, d);
    }
  }

  lemma ReflectsPlanned(f: File, recs: seq<Row>)
    requires Reflects(f, recs)
    ensures forall d :: Planned(recs, d) ==> Planned(Loaded(f), d)
  {
    AllPlannedWithin(Loaded(f), recs);
  }

  /** The steps of a list that have no record yet. */
  function Pending(recs: seq<Row>, point: nat, steps: seq<Step>): seq<Step> {
    if steps == [] then []
    else
      Pending(recs, point, Init(steps))
      + if Last(steps).seqNo in Done(recs, point, Last(steps).arm) then [] else [Last(steps)]
  }

  /** One record a step, with what its window came to. */
  function Attempts(point: nat, steps: seq<Step>, world: (nat, Step) -> Result): seq<Row> {
    if steps == [] then []
    else
      var step := Last(steps);
      Attempts(point, Init(steps), world) + [Row(point, step.arm, step.seqNo, world(point, step))]
  }

  lemma NoAttempts(was: seq<Row>, point: nat, world: (nat, Step) -> Result)
    ensures was == was + Attempts(point, Pending(was, point, []), world)
  {
  }

  lemma PendingSnoc(recs: seq<Row>, point: nat, steps: seq<Step>, step: Step)
    ensures Pending(recs, point, steps + [step])
         == Pending(recs, point, steps) + if step.seqNo in Done(recs, point, step.arm) then [] else [step]
  {
    assert Init(steps + [step]) == steps;
  }

  lemma AttemptsSnoc(point: nat, steps: seq<Step>, step: Step, world: (nat, Step) -> Result)
    ensures Attempts(point, steps + [step], world)
         == Attempts(point, steps, world) + [Row(point, step.arm, step.seqNo, world(point, step))]
  {
    assert Init(steps + [step]) == steps;
  }

  lemma {:induction false} PendingPrefix(recs: seq<Row>, point: nat, steps: seq<Step>, i: nat)
    requires i <= |steps|
    ensures Pending(recs, point, steps[..i]) <= Pending(recs, point, steps)
  {
    if i < |steps| {
      PendingPrefix(recs, point, Init(steps), i);
      assert Init(steps)[..i] == steps[..i];
    } else {
      assert steps[..i] == steps;
    }
  }

  /** The step list of a channel, place by place. */
  function List(c: Channel): seq<Step>
    requires c.block >= 1
  {
    var frames := if c.frames > 0 then c.frames else 0;
    seq(2 * frames, i requires 0 <= i < 2 * frames => StepAt(i, frames, c.block))
  }

  /** What a run of one channel adds to the records: the first `k` steps of those
      that had none, each with what its window came to. */
  ghost predicate Adds(was: seq<Row>, now: seq<Row>, c: Channel, world: (nat, Step) -> Result, k: nat)
    requires c.block >= 1
  {
    var todo := Pending(was, c.point, List(c));
    k <= |todo| && now == was + Attempts(c.point, todo[..k], world)
  }

  lemma AddsUp(was: seq<Row>, now: seq<Row>, c: Channel, steps: seq<Step>, i: nat, world: (nat, Step) -> Result)
    requires c.block >= 1 && steps == List(c) && i <= |steps|
    requires now == was + Attempts(c.point, Pending(was, c.point, steps[..i]), world)
    ensures Adds(was, now, c, world, |Pending(was, c.point, steps[..i])|)
  {
    PendingPrefix(was, c.point, steps, i);
    var part := Pending(was, c.point, steps[..i]);
    assert part == Pending(was, c.point, steps)[..|part|];
  }

  /** One channel: every step that is not done yet, in the order of the list, until
      the run is cut short. */
  method RunPoint(l: Ledger, c: Channel, world: (nat, Step) -> Result, stop: Option<(nat, Reach)>)
    returns (finished: bool)
    requires l.Valid()
    modifies l
    ensures Distinct(Loaded(l.file)) && old(l.records) <= l.records
    ensures finished ==> l.Valid() && AllDone(l.records, c) && c.block >= 1
    ensures finished ==> l.file == AppendAll(old(l.file), l.records[|old(l.records)|..])
    ensures c.block < 1 ==> l.records == old(l.records) && l.file == old(l.file)
    ensures c.block >= 1 ==> exists k: nat :: Adds(old(l.records), l.records, c, world, k)
    ensures finished ==> Adds(old(l.records), l.records, c, world, |Pending(old(l.records), c.point, List(c))|)
    ensures stop.None? && c.block >= 1 ==> finished
    ensures forall d :: Planned(old(l.records), d) && (d.point == c.point ==> d == c)
                        ==> Planned(l.records, d) && Planned(Loaded(l.file), d)
  {
    hide Has, Within, Loaded, Planned, Distinct, Complete, Even, Appended, CutShort;
    hide Pending, Attempts, Done, Adds, StepAt, AppendAll;
    ReflectsPlanned(l.file, l.records);
    NoneAppended(l.file);
    var r := StepsFor(c.frames, c.block);
    if r.ValueError? { return false; }
    var steps := r.steps;
    assert steps == List(c);
    if c.frames <= 0 { NoFramesNoSteps(steps, c.frames); }
    var already := map[Off := Done(l.records, c.point, Off), On := Done(l.records, c.point, On)];
    NoAttempts(old(l.records), c.point, world);
    for i := 0 to |steps|
      invariant l.Valid() && DoneTo(old(l.records), l.records, c.point, steps[..i])
      invariant l.records == old(l.records) + Attempts(c.point, Pending(old(l.records), c.point, steps[..i]), world)
      invariant l.file == AppendAll(old(l.file), l.records[|old(l.records)|..])
      invariant forall d :: Planned(old(l.records), d) && (d.point == c.point ==> d == c) ==> Planned(l.records, d)
    {
      var step := steps[i];
      NotBefore(steps, c.frames, i);
      DoneIsHas(old(l.records), c.point, step);
      assert steps[..i + 1] == steps[..i] + [step];
      PendingSnoc(old(l.records), c.point, steps[..i], step);
      ghost var before := Pending(old(l.records), c.point, steps[..i]);
      assert before + [] == before;
      assert step.arm == Off || step.arm == On;
      if step.seqNo in already[step.arm] {
        DoneToSkips(old(l.records), l.records, c.point, steps[..i], step);
      } else {
        var result := world(c.point, step);
        var row := Row(c.point, step.arm, step.seqNo, result);
        forall d | Planned(old(l.records), d) && (d.point == c.point ==> d == c)
          ensures Planned(l.records + [row], d)
        {
          PlannedSnoc(l.records, row, d);
        }
        if stop.Some? && stop.value.0 <= i {
          AddsUp(old(l.records), l.records, c, steps, i, world);
          l.Interrupt(row, stop.value.1);
          AllPlannedWithin(Loaded(l.file), l.records + [row]);
          return false;
        }
        DoneToRecords(old(l.records), l.records, c.point, steps[..i], step, result);
        AttemptsSnoc(c.point, before, step, world);
        assert l.records + [row] == old(l.records) + (Attempts(c.point, before, world) + [row]);
        ghost var news := l.records[|old(l.records)|..];
        AppendAllSnoc(old(l.file), news, row);
        assert (l.records + [row])[|old(l.records)|..] == news + [row];
        l.Record(c.point, step.arm, step.seqNo, result);
      }
    }
    assert steps[..|steps|] == steps;
    AddsUp(old(l.records), l.records, c, steps, |steps|, world);
    ListIsDone(old(l.records), l.records, c, steps);
    ReflectsPlanned(l.file, l.records);
    finished := true;
  }

  /** No block is refused, of the channels a run finds quiet. */
  predicate Sound(plan: seq<Channel>, quiet: nat -> bool) {
    forall k :: 0 <= k < |plan| && quiet(k) ==> plan[k].block >= 1
  }

  /** A file the runs of a plan can have left. */
  predicate Left(f: File, plan: seq<Channel>) { Distinct(Loaded(f)) && AllPlanned(Loaded(f), plan) }

  /** From a place on, every record says what its window came to. */
  ghost predicate Told(recs: seq<Row>, from: nat, world: (nat, Step) -> Result) {
    forall i :: from <= i < |recs| ==> recs[i].result == world(recs[i].point, Step(recs[i].arm, recs[i].seqNo))
  }

  lemma {:induction false} AttemptsAreTold(was: seq<Row>, point: nat, steps: seq<Step>,
                                           world: (nat, Step) -> Result, from: nat)
    requires Told(was, from, world) && from <= |was|
    ensures Told(was + Attempts(point, steps, world), from, world)
  {
    if steps != [] {
      AttemptsAreTold(was, point, Init(steps), world, from);
      var before := was + Attempts(point, Init(steps), world);
      var rec := Row(point, Last(steps).arm, Last(steps).seqNo, world(point, Last(steps)));
      assert was + Attempts(point, steps, world) == before + [rec];
    }
  }

  /** One run over a file: read, opened, and each channel that is quiet gone
      through. Without `resume` a file that has frames in it is refused as it is. Of a
      run that finishes the file lacks a cut line's frame and the one joined to it. */
  method RunFrom(f: File, plan: seq<Channel>, resume: bool, run: Run)
    returns (after: File, recs: seq<Row>, finished: bool)
    requires OnePointEach(plan) && Left(f, plan)
    ensures Left(after, plan) && Loaded(f) <= recs && Told(recs, |Loaded(f)|, run.world)
    ensures !resume && Loaded(f) != [] ==> after == f && !finished
    ensures finished ==>
      && Distinct(recs) && AllPlanned(recs, plan)
      && forall k :: 0 <= k < |plan| && run.quiet(k) ==> AllDone(recs, plan[k])
    ensures finished ==> after == AppendAll(Opened(f), recs[|Loaded(f)|..])
    ensures finished ==> Lacks(after, recs, Lost(f, recs[|Loaded(f)|..]))
    ensures run.stop.None? && Sound(plan, run.quiet) && (resume || Loaded(f) == []) ==> finished
  {
    hide Has, Distinct, Appended, Loaded, AllDone, Planned, AppendAll, Opened;
    var l := new Ledger(f);
    l.Load();
    recs := l.records;
    if l.records != [] && !resume { return f, recs, false; }
    WithinItself(recs);
    if run.stop.Some? && run.stop.value.AtHeader? && f == EMPTY {
      HeaderCutReads(run.stop.value.reach);
      after := CutShort(f, Header, run.stop.value.reach);
      NothingPlanned(after, plan);
      return after, recs, false;
    }
    l.Open();
    ReflectsPlanned(l.file, l.records);
    NoneAppended(l.file);
    assert l.records[|Loaded(f)|..] == [];
    for k := 0 to |plan|
      invariant l.Valid() && Loaded(f) <= l.records && AllPlanned(l.records, plan) && AllPlanned(Loaded(l.file), plan)
      invariant Told(l.records, |Loaded(f)|, run.world)
      invariant l.file == AppendAll(Opened(f), l.records[|Loaded(f)|..])
      invariant forall j :: 0 <= j < k && run.quiet(j) ==> AllDone(l.records, plan[j])
    {
      if run.quiet(k) {
        var here := run.stop.Some? && run.stop.value.At? && run.stop.value.channel == k;
        var at := if here then Some((run.stop.value.step, run.stop.value.reach)) else None;
        ghost var was := l.records;
        var done := RunPoint(l, plan[k], run.world, at);
        if plan[k].block >= 1 { PointIsTold(was, l.records, plan[k], run.world, |Loaded(f)|); }
        forall j | 0 <= j < |plan|
          ensures Planned(l.records, plan[j]) && Planned(Loaded(l.file), plan[j])
        {
          assert Planned(was, plan[j]);
        }
        if !done {
          return l.file, l.records, false;
        }
        AppendsJoin(Opened(f), was, l.records, |Loaded(f)|);
        forall j | 0 <= j < k && run.quiet(j)
          ensures AllDone(l.records, plan[j])
        {
          AllDoneLater(was, l.records, plan[j]);
        }
      }
    }
    FinishedLacks(f, l.file, l.records);
    return l.file, l.records, true;
  }

  lemma AppendsJoin(f: File, was: seq<Row>, now: seq<Row>, n: nat)
    requires n <= |was| && was <= now
    ensures AppendAll(AppendAll(f, was[n..]), now[|was|..]) == AppendAll(f, now[n..])
  {
    hide AppendAll;
    AppendAllMore(f, was[n..], now[|was|..]);
    assert was[n..] + now[|was|..] == now[n..];
  }

  lemma FinishedLacks(f: File, after: File, recs: seq<Row>)
    requires Loaded(f) <= recs && Distinct(recs) && after == AppendAll(Opened(f), recs[|Loaded(f)|..])
    ensures Lacks(after, recs, Lost(f, recs[|Loaded(f)|..]))
  {
    hide Loaded, AppendAll, Distinct, Appended;
    var news := recs[|Loaded(f)|..];
    OpenedReads(f);
    assert Loaded(f) + news == recs;
    forall rec | rec in recs
      ensures rec !in Loaded(after) <==> rec in Lost(f, news)
    {
      LackedIff(Opened(f), news, rec);
    }
  }

  lemma OpenedReads(f: File)
    ensures Loaded(Opened(f)) == Loaded(f) && Opened(f).tail == f.tail
  {
    HeaderReads(f);
  }

  lemma PointIsTold(was: seq<Row>, now: seq<Row>, c: Channel, world: (nat, Step) -> Result, from: nat)
    requires c.block >= 1 && Told(was, from, world) && from <= |was|
    requires exists k: nat :: Adds(was, now, c, world, k)
    ensures Told(now, from, world)
  {
    hide Told, Attempts, Pending, List;
    var k: nat :| Adds(was, now, c, world, k);
    AttemptsAreTold(was, c.point, Pending(was, c.point, List(c))[..k], world, from);
  }

  lemma NothingPlanned(f: File, plan: seq<Channel>)
    requires Loaded(f) == []
    ensures Left(f, plan)
  {
  }

  lemma WithinItself(recs: seq<Row>)
    ensures Within(recs, recs)
  {
  }

  lemma AllDoneLater(was: seq<Row>, now: seq<Row>, c: Channel)
    requires AllDone(was, c) && was <= now
    ensures AllDone(now, c)
  {
    hide Has;
    forall arm, n: nat | n < c.frames
      ensures Has(now, c.point, Step(arm, n))
    {
      HasPrefix(was, now, c.point, Step(arm, n));
    }
  }

  /** Once a channel is done, each arm has as many windows attempted as frames, each
      sent or excluded. */
  lemma FinishedTally(recs: seq<Row>, c: Channel, arm: Arm)
    requires Distinct(recs) && Planned(recs, c) && AllDone(recs, c) && c.frames >= 0
    ensures var t := TallyOf(recs, c.point, arm);
      t.attempted == c.frames && t.sent + t.noTx + t.nodeTx == c.frames && t.sent == t.received + t.missed
  {
    hide Distinct;
    forall n: nat
      ensures n in Done(recs, c.point, arm) <==> n < c.frames
    {
      DoneIsHas(recs, c.point, Step(arm, n));
      if n < c.frames { assert Has(recs, c.point, Step(arm, n)); }
    }
    CountUpTo(c.frames, Done(recs, c.point, arm));
    AttemptedIsDone(recs, c.point, arm);
    TallyAddsUp(recs, c.point, arm);
  }

  /** Any number of runs over one file, each cut short anywhere or not, each finding
      quiet whichever channels it does: what can be read from the file never has a step
      twice, and a run that finishes has every step of every channel that was quiet in
      it exactly once. The file then lacks what the half line it was resumed on took
      with it, and nothing else. */
  method Campaign(plan: seq<Channel>, runs: seq<Run>)
    returns (f: File, recs: seq<Row>, finished: bool, ghost before: File)
    requires OnePointEach(plan)
    ensures Distinct(Loaded(f))
    ensures runs != [] && Last(runs).stop.None? && Sound(plan, Last(runs).quiet) ==> finished
    ensures finished ==> runs != [] && Distinct(recs)
    ensures finished ==> forall k :: 0 <= k < |plan| && Last(runs).quiet(k) ==> AllDone(recs, plan[k])
    ensures finished ==> forall k, arm :: 0 <= k < |plan| && Last(runs).quiet(k) && plan[k].frames >= 0 ==>
      TallyOf(recs, plan[k].point, arm).attempted == plan[k].frames
    ensures finished ==> Loaded(before) <= recs && Lacks(f, recs, Lost(before, recs[|Loaded(before)|..]))
  {
    hide Distinct, AllDone, Loaded, TallyOf, Sound, Lacks, Lost;
    f, recs, finished, before := EMPTY, [], false, EMPTY;
    EmptyLoads();
    NothingPlanned(EMPTY, plan);
    for i := 0 to |runs|
      invariant Left(f, plan) && (finished ==> i > 0)
      invariant i > 0 && runs[i - 1].stop.None? && Sound(plan, runs[i - 1].quiet) ==> finished
      invariant finished ==> Distinct(recs) && AllPlanned(recs, plan)
      invariant finished ==> forall k :: 0 <= k < |plan| && runs[i - 1].quiet(k) ==> AllDone(recs, plan[k])
      invariant finished ==> Loaded(before) <= recs && Lacks(f, recs, Lost(before, recs[|Loaded(before)|..]))
    {
      before := f;
      f, recs, finished := RunFrom(f, plan, true, runs[i]);
    }
    if finished {
      forall k, arm | 0 <= k < |plan| && Last(runs).quiet(k) && plan[k].frames >= 0
        ensures TallyOf(recs, plan[k].point, arm).attempted == plan[k].frames
      {
        assert Planned(recs, plan[k]);
        FinishedTally(recs, plan[k], arm);
      }
    }
  }

  lemma EmptyLoads()
    ensures Loaded(EMPTY) == []
  {
  }
}
