/** Each line of a JSONL source is imported once, however often and in however many
    growing versions the source is imported. */
module JsonlTheorems {
  import opened Prelude
  import opened JsonlImport
  import LedgerState

  // ----- running over lines --------------------------------------------------------------

  lemma {:induction false} LinesConcat(decode: Decoder, source: string, p: Progress, a: seq<Line>, b: seq<Line>)
    ensures var first := ImportLines(decode, source, p, a);
            ImportLines(decode, source, p, a + b) ==
            if first.Err? then first else ImportLines(decode, source, first.value, b)
  {
    if b == [] {
      assert a + b == a;
    } else {
      LinesConcat(decode, source, p, a, Init(b));
      assert Init(a + b) == a + Init(b);
    }
  }

  function AddCount(r: Result<Progress, ImportError>, n: nat): Result<Progress, ImportError> {
    if r.Err? then r else Ok(r.value.(imported := r.value.imported + n))
  }

  lemma {:induction false} CountShifts(decode: Decoder, source: string, db: Database, n: nat, m: nat, lines: seq<Line>)
    ensures ImportLines(decode, source, Progress(db, n + m), lines) ==
            AddCount(ImportLines(decode, source, Progress(db, n), lines), m)
  {
    if lines != [] {
      CountShifts(decode, source, db, n, m, Init(lines));
    }
  }

  lemma FinishShifts(decode: Decoder, source: string, lines: Result<Progress, ImportError>, n: nat, tail: Line)
    ensures Finish(decode, source, AddCount(lines, n), tail) == AddCount(Finish(decode, source, lines, tail), n)
  {
  }

  // ----- lines already seen ----------------------------------------------------------------

  /** Importing this complete line again would change nothing. */
  predicate Seen(decode: Decoder, source: string, db: Database, line: Line) {
    && |line.bytes| <= RECORD_MAX_BYTES
    && (Blank(line.bytes) ||
        (decode(line.bytes).Some? &&
         (decode(line.bytes).value.durability == LedgerState.Ephemeral || Print(source, line) in db.imports)))
  }

  ghost predicate AllSeen(decode: Decoder, source: string, db: Database, lines: seq<Line>) {
    forall l :: l in lines ==> Seen(decode, source, db, l)
  }

  lemma {:induction false} SeenIsSkipped(decode: Decoder, source: string, p: Progress, lines: seq<Line>)
    requires AllSeen(decode, source, p.db, lines)
    ensures ImportLines(decode, source, p, lines) == Ok(p)
  {
    if lines != [] {
      assert Last(lines) in lines;
      SeenIsSkipped(decode, source, p, Init(lines));
    }
  }

  lemma {:induction false} ImportedIsSeen(decode: Decoder, source: string, p: Progress, lines: seq<Line>)
    requires ImportLines(decode, source, p, lines).Ok?
    ensures var after := ImportLines(decode, source, p, lines).value;
            AllSeen(decode, source, after.db, lines) && p.db.imports.Keys <= after.db.imports.Keys
  {
    if lines != [] {
      ImportedIsSeen(decode, source, p, Init(lines));
      InitLast(lines);
    }
  }

  /** Importing the same content again adds nothing, whatever was imported before, by
      this version or an earlier one. */
  lemma ReimportAddsNothing(decode: Decoder, source: string, db: Database, content: seq<Byte>)
    requires Import(decode, source, db, content).Ok?
    ensures var after := Import(decode, source, db, content).value.db;
            Import(decode, source, after, content) == Ok(Progress(after, 0))
  {
    var pieces := Split(content);
    var start := Progress(db, 0);
    ImportedIsSeen(decode, source, start, pieces.complete);
    var after := Import(decode, source, db, content).value;
    assert AllSeen(decode, source, after.db, pieces.complete);
    SeenIsSkipped(decode, source, Progress(after.db, 0), pieces.complete);
  }

  // ----- growing sources ----------------------------------------------------------------------

  lemma {:induction false} SplitExtends(content: seq<Byte>, more: seq<Byte>)
    ensures Split(content).complete <= Split(content + more).complete
  {
    if more == [] {
      assert content + more == content;
    } else {
      SplitExtends(content, Init(more));
      assert Init(content + more) == content + Init(more);
    }
  }

  lemma TerminatedTail(content: seq<Byte>, more: seq<Byte>)
    requires more != [] && more[0] == NEWLINE
    ensures Split(content).complete + [Split(content).tail] <= Split(content + more).complete
  {
    InitOfAppend(content, NEWLINE);
    SplitExtends(content + [NEWLINE], more[1..]);
    assert content + [NEWLINE] + more[1..] == content + more;
  }

  /** Once the first lines are imported, going over the grown content from the start
      only imports the others. */
  lemma Resume(decode: Decoder, source: string, db: Database, content: seq<Byte>, first: seq<Line>, p: Progress)
    requires first <= Split(content).complete && ImportLines(decode, source, Progress(db, 0), first) == Ok(p)
    ensures Import(decode, source, db, content) == AddCount(Import(decode, source, p.db, content), p.imported)
  {
    var complete := Split(content).complete;
    var rest := complete[|first|..];
    assert complete == first + rest;
    LinesConcat(decode, source, Progress(db, 0), first, rest);
    ImportedIsSeen(decode, source, Progress(db, 0), first);
    SeenIsSkipped(decode, source, Progress(p.db, 0), first);
    LinesConcat(decode, source, Progress(p.db, 0), first, rest);
    CountShifts(decode, source, p.db, 0, p.imported, rest);
    assert Progress(p.db, 0 + p.imported) == p;
    FinishShifts(decode, source, ImportLines(decode, source, Progress(p.db, 0), rest), p.imported, Split(content).tail);
  }

  /** The unterminated rest was taken for a record and given a fingerprint. */
  predicate TailRecorded(decode: Decoder, source: string, db: Database, content: seq<Byte>) {
    var tail := Split(content).tail;
    && Eligible(decode, tail) && decode(tail.bytes).value.durability != LedgerState.Ephemeral
    && Print(source, tail) !in db.imports
  }

  /** What may follow content that was already imported. */
  predicate Resumable(decode: Decoder, source: string, db: Database, content: seq<Byte>, more: seq<Byte>) {
    more == [] || more[0] == NEWLINE || !TailRecorded(decode, source, db, content)
  }

  lemma EarlierOffsets(content: seq<Byte>, line: Line)
    requires line in Split(content).complete
    ensures line.offset < Split(content).tail.offset
  {
    SplitIsExact(content);
    var complete := Split(content).complete;
    var k :| 0 <= k < |complete| && complete[k] == line;
    assert Placed(complete, k);
    JoinGrows(complete, k);
  }

  lemma {:induction false} JoinGrows(lines: seq<Line>, k: nat)
    requires k < |lines|
    ensures |Join(lines[..k])| < |Join(lines)|
  {
    if k < |lines| - 1 {
      JoinGrows(Init(lines), k);
      assert Init(lines)[..k] == lines[..k];
    } else {
      assert lines[..k] == Init(lines);
    }
  }

  lemma {:induction false} ImportKeys(decode: Decoder, source: string, p: Progress, lines: seq<Line>, key: Fingerprint)
    requires ImportLines(decode, source, p, lines).Ok?
    requires key in ImportLines(decode, source, p, lines).value.db.imports
    ensures key in p.db.imports || exists l :: l in lines && key == Print(source, l)
  {
    if lines != [] {
      var before := ImportLines(decode, source, p, Init(lines)).value;
      if key in before.db.imports {
        ImportKeys(decode, source, p, Init(lines), key);
      } else {
        assert Last(lines) in lines && key == Print(source, Last(lines));
      }
    }
  }

  /** A tail without a record of its own leaves no trace. */
  lemma UnrecordedTail(decode: Decoder, source: string, db: Database, content: seq<Byte>)
    requires Import(decode, source, db, content).Ok? && !TailRecorded(decode, source, db, content)
    ensures Import(decode, source, db, content) == ImportLines(decode, source, Progress(db, 0), Split(content).complete)
  {
    ImportedIsSeen(decode, source, Progress(db, 0), Split(content).complete);
  }

  lemma GrowthIsIncremental(decode: Decoder, source: string, db: Database, content: seq<Byte>, more: seq<Byte>)
    requires Import(decode, source, db, content).Ok? && Resumable(decode, source, db, content, more)
    ensures var p := Import(decode, source, db, content).value;
            Import(decode, source, db, content + more) ==
            AddCount(Import(decode, source, p.db, content + more), p.imported)
  {
    var p, pieces := Import(decode, source, db, content).value, Split(content);
    if !TailRecorded(decode, source, db, content) {
      UnrecordedTail(decode, source, db, content);
      SplitExtends(content, more);
      Resume(decode, source, db, content + more, pieces.complete, p);
    } else if more == [] {
      assert content + more == content;
      ReimportAddsNothing(decode, source, db, content);
    } else {
      TerminatedTail(content, more);
      var first := pieces.complete + [pieces.tail];
      LinesConcat(decode, source, Progress(db, 0), pieces.complete, [pieces.tail]);
      assert Init([pieces.tail]) == [] && Last([pieces.tail]) == pieces.tail;
      Resume(decode, source, db, content + more, first, p);
    }
  }

  /** A line of the grown content that starts where the old tail did is longer. */
  ghost predicate Outgrows(tail: Line, line: Line) {
    line.offset == tail.offset ==> |line.bytes| > |tail.bytes|
  }

  lemma {:induction false} GrownLines(content: seq<Byte>, more: seq<Byte>)
    requires more != [] && more[0] != NEWLINE
    ensures var tail, grown := Split(content).tail, Split(content + more);
            (forall l :: l in grown.complete ==> Outgrows(tail, l)) && Outgrows(tail, grown.tail)
  {
    var tail := Split(content).tail;
    assert Init(content + more) == content + Init(more);
    SplitIsExact(content);
    if |more| == 1 {
      assert content + Init(more) == content;
      forall l | l in Split(content).complete ensures Outgrows(tail, l) {
        EarlierOffsets(content, l);
      }
    } else {
      GrownLines(content, Init(more));
      assert |content + more| > |content| >= tail.offset;
    }
  }

  /** Bytes that continue a recorded tail make it a different line, whose record is then
      imported next to the one already there. */
  lemma ContinuedTail(decode: Decoder, source: string, db: Database, content: seq<Byte>, more: seq<Byte>)
    requires Import(decode, source, db, content).Ok? && Import(decode, source, db, content + more).Ok?
    requires !Resumable(decode, source, db, content, more)
    ensures var key := Print(source, Split(content).tail);
            && key in Import(decode, source, db, content).value.db.imports
            && key !in Import(decode, source, db, content + more).value.db.imports
  {
    var grown, tail := Split(content + more), Split(content).tail;
    var key := Print(source, tail);
    GrownLines(content, more);
    if key in Import(decode, source, db, content + more).value.db.imports {
      var lines := ImportLines(decode, source, Progress(db, 0), grown.complete).value;
      assert Outgrows(tail, grown.tail) && key != Print(source, grown.tail);
      ImportKeys(decode, source, Progress(db, 0), grown.complete, key);
    }
  }

  lemma ImportsOnlyGrow(decode: Decoder, source: string, db: Database, content: seq<Byte>)
    requires Import(decode, source, db, content).Ok?
    ensures db.imports.Keys <= Import(decode, source, db, content).value.db.imports.Keys
  {
    ImportedIsSeen(decode, source, Progress(db, 0), Split(content).complete);
  }

  /** Importing a source and then its grown version gives what importing the grown
      version at once gives, exactly when no recorded tail is continued. */
  lemma GrowthIsIncrementalExactly(decode: Decoder, source: string, db: Database, content: seq<Byte>, more: seq<Byte>)
    requires Import(decode, source, db, content).Ok? && Import(decode, source, db, content + more).Ok?
    ensures var p := Import(decode, source, db, content).value;
            Import(decode, source, db, content + more) ==
            AddCount(Import(decode, source, p.db, content + more), p.imported)
            <==> Resumable(decode, source, db, content, more)
  {
    var p := Import(decode, source, db, content).value;
    var again := Import(decode, source, p.db, content + more);
    if Resumable(decode, source, db, content, more) {
      GrowthIsIncremental(decode, source, db, content, more);
    } else {
      ContinuedTail(decode, source, db, content, more);
      if again.Ok? {
        ImportsOnlyGrow(decode, source, p.db, content + more);
      }
    }
  }

  // ----- what a first import adds -----------------------------------------------------------

  /** The durable records among some lines. */
  function Durable(decode: Decoder, lines: seq<Line>): seq<Record> {
    if lines == [] then []
    else
      var last := decode(Last(lines).bytes);
      Durable(decode, Init(lines)) +
      (if Blank(Last(lines).bytes) || last.None? || last.value.durability == LedgerState.Ephemeral then [] else [last.value])
  }

  /** Records numbered on from a sequence. */
  function Numbered(records: seq<Record>, base: nat): seq<Record> {
    if records == [] then []
    else Numbered(Init(records), base) + [Last(records).(number := base + |records|)]
  }

  /** Nothing of this source, and nothing by an earlier version, was imported. */
  ghost predicate Untouched(db: Database, source: string) {
    forall key :: key in db.imports ==> key.RawLineOffset? && key.source != source
  }

  ghost predicate DistinctOffsets(lines: seq<Line>) {
    forall i, j :: 0 <= i < j < |lines| ==> lines[i].offset != lines[j].offset
  }

  /** The state of a first import after some lines. */
  ghost predicate AddedExactly(decode: Decoder, db: Database, lines: seq<Line>, p: Progress) {
    && p.db.records == db.records + Numbered(Durable(decode, lines), db.sequence)
    && p.imported == |Durable(decode, lines)| && p.db.sequence == db.sequence + p.imported
  }

  lemma FirstImportOfLine(decode: Decoder, source: string, db: Database, lines: seq<Line>, p: Progress)
    requires lines != [] && ImportLine(decode, source, p, Last(lines)).Ok?
    requires !Blank(Last(lines).bytes) && AddedExactly(decode, db, Init(lines), p)
    requires Print(source, Last(lines)) !in p.db.imports && forall key :: key in p.db.imports ==> key.RawLineOffset?
    ensures AddedExactly(decode, db, lines, ImportLine(decode, source, p, Last(lines)).value)
  {
    var before, record := Durable(decode, Init(lines)), decode(Last(lines).bytes).value;
    InitOfAppend(before, record);
    assert before + [] == before;
    assert db.records + (Numbered(before, db.sequence) + [record.(number := p.db.sequence + 1)]) ==
           p.db.records + [record.(number := p.db.sequence + 1)];
  }

  lemma {:induction false} FirstImportOfLines(decode: Decoder, source: string, db: Database, lines: seq<Line>)
    requires Untouched(db, source) && DistinctOffsets(lines) && ImportLines(decode, source, Progress(db, 0), lines).Ok?
    ensures AddedExactly(decode, db, lines, ImportLines(decode, source, Progress(db, 0), lines).value)
  {
    if lines != [] {
      FirstImportOfLines(decode, source, db, Init(lines));
      var p := ImportLines(decode, source, Progress(db, 0), Init(lines)).value;
      if !Blank(Last(lines).bytes) {
        PrintsSoFar(decode, source, db, lines);
        FirstImportOfLine(decode, source, db, lines, p);
      } else {
        assert Durable(decode, lines) == Durable(decode, Init(lines));
      }
    }
  }

  lemma PrintsSoFar(decode: Decoder, source: string, db: Database, lines: seq<Line>)
    requires Untouched(db, source) && lines != [] && DistinctOffsets(lines)
    requires ImportLines(decode, source, Progress(db, 0), Init(lines)).Ok?
    ensures var imports := ImportLines(decode, source, Progress(db, 0), Init(lines)).value.db.imports;
            Print(source, Last(lines)) !in imports && forall key :: key in imports ==> key.RawLineOffset?
  {
    var imports := ImportLines(decode, source, Progress(db, 0), Init(lines)).value.db.imports;
    forall key | key in imports ensures key.RawLineOffset? && key != Print(source, Last(lines)) {
      ImportKeys(decode, source, Progress(db, 0), Init(lines), key);
      if key !in db.imports {
        var l :| l in Init(lines) && key == Print(source, l);
        var k :| 0 <= k < |Init(lines)| && Init(lines)[k] == l;
        assert lines[k].offset != Last(lines).offset;
      }
    }
  }

  lemma SplitOffsets(content: seq<Byte>)
    ensures DistinctOffsets(Split(content).complete + [Split(content).tail])
  {
    SplitIsExact(content);
    var complete, tail := Split(content).complete, Split(content).tail;
    var all := complete + [tail];
    forall i, j | 0 <= i < j < |all| ensures all[i].offset != all[j].offset {
      assert Placed(complete, i);
      if j < |complete| {
        assert Placed(complete, j) && complete[..j][..i] == complete[..i];
        JoinGrows(complete[..j], i);
      } else {
        EarlierOffsets(content, complete[i]);
      }
    }
  }

  /** The lines of a source that count: all complete ones, and the tail if it decodes. */
  function Counted(decode: Decoder, content: seq<Byte>): seq<Line> {
    var pieces := Split(content);
    if Eligible(decode, pieces.tail) then pieces.complete + [pieces.tail] else pieces.complete
  }

  /** A first import adds the durable records of the source, each once, in order, under
      the next sequence numbers. */
  lemma FirstImportIsExact(decode: Decoder, source: string, db: Database, content: seq<Byte>)
    requires Untouched(db, source) && Import(decode, source, db, content).Ok?
    ensures AddedExactly(decode, db, Counted(decode, content), Import(decode, source, db, content).value)
  {
    var pieces := Split(content);
    SplitOffsets(content);
    var all := pieces.complete + [pieces.tail];
    InitOfAppend(pieces.complete, pieces.tail);
    assert forall i :: 0 <= i < |pieces.complete| ==> all[i] == pieces.complete[i];
    FirstImportOfLines(decode, source, db, pieces.complete);
    if Eligible(decode, pieces.tail) {
      PrintsSoFar(decode, source, db, all);
      FirstImportOfLine(decode, source, db, all, ImportLines(decode, source, Progress(db, 0), pieces.complete).value);
    }
  }

  // ----- a continued tail ----------------------------------------------------------------------

  /** Bytes without a newline lengthen the tail and nothing else. */
  lemma {:induction false} SplitRun(before: seq<Byte>, run: seq<Byte>)
    requires NEWLINE !in run
    ensures var pieces := Split(before);
            Split(before + run) == pieces.(tail := pieces.tail.(bytes := pieces.tail.bytes + run))
  {
    if run == [] {
      assert before + run == before;
      assert Split(before).tail.bytes + [] == Split(before).tail.bytes;
    } else {
      SplitRun(before, Init(run));
      assert Init(before + run) == before + Init(run);
      InitLast(run);
      assert Split(before).tail.bytes + run == Split(before).tail.bytes + Init(run) + [Last(run)];
    }
  }

  const SPACE: Byte := 32

  /** A record without a final newline, which reads the same with a space behind it. */
  ghost predicate PaddedRecord(decode: Decoder, tail: seq<Byte>, r: Record) {
    && NEWLINE !in tail && !Blank(tail) && |tail| < RECORD_MAX_BYTES
    && decode(tail) == decode(tail + [SPACE]) == Some(r) && r.durability != LedgerState.Ephemeral
  }

  lemma TailAlone(content: seq<Byte>)
    requires NEWLINE !in content
    ensures Split(content) == Pieces([], Line(0, 1, content))
  {
    SplitRun([], content);
    assert [] + content == content;
  }

  lemma TailIsImported(decode: Decoder, source: string, db: Database, content: seq<Byte>, r: Record)
    requires NEWLINE !in content && !Blank(content) && |content| <= RECORD_MAX_BYTES
    requires decode(content) == Some(r) && r.durability != LedgerState.Ephemeral && db.sequence < LedgerState.I64_MAX
    requires RawLineOffset(source, 0, content) !in db.imports && forall key :: key in db.imports ==> key.RawLineOffset?
    ensures Import(decode, source, db, content) == Ok(Progress(Insert(db, source, Line(0, 1, content), r), 1))
  {
    TailAlone(content);
  }

  /** It happens with any decoder that, like that of JSON, passes over trailing space: a
      recorded tail that grows by one space is stored a second time, where importing the
      grown source at once stores it once. */
  lemma ContinuedTailDuplicates(decode: Decoder, source: string, db: Database, tail: seq<Byte>, r: Record)
    requires PaddedRecord(decode, tail, r) && Untouched(db, source) && db.sequence + 1 < LedgerState.I64_MAX
    ensures var first := Import(decode, source, db, tail);
            var once := Import(decode, source, db, tail + [SPACE]);
            && first.Ok? && once.Ok? && once.value.db.records == db.records + [r.(number := db.sequence + 1)]
            && var second := Import(decode, source, first.value.db, tail + [SPACE]);
               && second.Ok?
               && second.value.db.records ==
                  db.records + [r.(number := db.sequence + 1)] + [r.(number := db.sequence + 2)]
  {
    var longer := tail + [SPACE];
    PaddedTail(tail);
    TailsAreNew(db, source, tail, longer, r);
    TailIsImported(decode, source, db, tail, r);
    TailIsImported(decode, source, db, longer, r);
    TailIsImported(decode, source, Insert(db, source, Line(0, 1, tail), r), longer, r);
  }

  lemma TailsAreNew(db: Database, source: string, tail: seq<Byte>, longer: seq<Byte>, r: Record)
    requires Untouched(db, source) && tail != longer
    ensures RawLineOffset(source, 0, tail) !in db.imports && RawLineOffset(source, 0, longer) !in db.imports
    ensures var first := Insert(db, source, Line(0, 1, tail), r).imports;
            RawLineOffset(source, 0, longer) !in first && forall key :: key in first ==> key.RawLineOffset?
  {
  }

  lemma PaddedTail(tail: seq<Byte>)
    requires NEWLINE !in tail && !Blank(tail)
    ensures NEWLINE !in tail + [SPACE] && !Blank(tail + [SPACE]) && tail + [SPACE] != tail
  {
    var x :| x in tail && !IsWhitespace(x);
    assert x in tail + [SPACE] && |tail + [SPACE]| == |tail| + 1;
  }
}
