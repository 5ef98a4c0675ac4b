/** The buffered reader loop of the JSONL import. */
module JsonlReader {
  import opened Prelude
  import opened JsonlImport
  import opened JsonlTheorems
  import LedgerState

  /** How many bytes the reader has buffered at a position; an empty buffer means the
      content has ended, so there is at least one byte before that. */
  function BufferSize(sizes: nat -> nat, position: nat, left: nat): (size: nat)
    requires left > 0
    ensures 0 < size <= left
  {
    if sizes(position) == 0 then 1 else if sizes(position) > left then left else sizes(position)
  }

  method FindNewline(buffer: seq<Byte>) returns (at: Option<nat>)
    ensures at.None? <==> NEWLINE !in buffer
    ensures at.Some? ==> at.value < |buffer| && buffer[at.value] == NEWLINE && NEWLINE !in buffer[..at.value]
  {
    for i := 0 to |buffer|
      invariant NEWLINE !in buffer[..i]
    {
      if buffer[i] == NEWLINE { return Some(i); }
    }
    return None;
  }

  class LegacyImporter {
    var db: Database

    constructor (db: Database)
      ensures this.db == db
    {
      this.db := db;
    }

    /** Imports a source inside one transaction: for every way the content may come in
        buffers the outcome is that of the plain split, and a failure changes nothing. */
    method ImportReader(decode: Decoder, source: string, content: seq<Byte>, sizes: nat -> nat)
      returns (answer: Result<nat, ImportError>)
      modifies this
      ensures var outcome := Import(decode, source, old(db), content);
              if outcome.Ok? then answer == Ok(outcome.value.imported) && db == outcome.value.db
              else answer == Err(outcome.error) && db == old(db)
    {
      var start := Progress(db, 0);
      var r := Reading(start, 0, 0, 0, [], false);
      while r.position < |content|
        invariant db == old(db) && Reads(decode, source, start, content, r)
        decreases |content| - r.position
      {
        var buffer := content[r.position..r.position + BufferSize(sizes, r.position, |content| - r.position)];
        var next := Consume(decode, source, r, buffer, start, content);
        if next.Err? { return Err(next.error); }
        r := next.value;
      }
      assert content[..r.position] == content;
      var end := EndInput(decode, source, r, start, content);
      if end.Err? { return Err(end.error); }
      db := end.value.db;
      return Ok(end.value.imported);
    }
  }

  /** The variables of the reading loop. */
  datatype Reading = Reading(progress: Progress, position: nat, lineNumber: nat, lineOffset: nat, line: seq<Byte>,
                             oversized: bool)

  /** Every line up to the position is imported, and the rest of it is held. */
  ghost predicate Reads(decode: Decoder, source: string, start: Progress, content: seq<Byte>, r: Reading) {
    && r.position <= |content|
    && Holds(content[..r.position], r.lineNumber, r.lineOffset, r.line, r.oversized)
    && ImportLines(decode, source, start, Split(content[..r.position]).complete) == Ok(r.progress)
  }

  /** Consumes a buffer up to and including its first newline. */
  method Consume(decode: Decoder, source: string, r: Reading, buffer: seq<Byte>, ghost start: Progress,
                 ghost content: seq<Byte>) returns (next: Result<Reading, ImportError>)
    requires Reads(decode, source, start, content, r) && 0 < |buffer| && r.position + |buffer| <= |content|
    requires buffer == content[r.position..r.position + |buffer|]
    ensures next.Ok? ==> Reads(decode, source, start, content, next.value) && next.value.position > r.position
    ensures next.Err? ==> ImportLines(decode, source, start, Split(content).complete) == Err(next.error)
  {
    var newline := FindNewline(buffer);
    var recordBytes := if newline.Some? then newline.value else |buffer|;
    ghost var before, middle := content[..r.position], content[..r.position + recordBytes];
    assert middle == before + buffer[..recordBytes];
    var line, oversized := Extend(r.line, r.oversized, buffer[..recordBytes], before, r.lineNumber, r.lineOffset);
    if newline.None? {
      return Ok(r.(position := r.position + |buffer|, line := line, oversized := oversized));
    }
    var position := r.position + recordBytes + 1;
    assert content[..position] == middle + [NEWLINE];
    var step := EndLine(decode, source, r.progress, r.lineNumber, r.lineOffset, line, oversized, start, middle);
    if step.Err? {
      ErrorStays(decode, source, start, content, position);
      return Err(step.error);
    }
    return Ok(Reading(step.value, position, r.lineNumber + 1, position, [], false));
  }

  /** The loop's variables against the split of what was consumed. */
  ghost predicate Holds(consumed: seq<Byte>, lineNumber: nat, lineOffset: nat, line: seq<Byte>, oversized: bool) {
    var pieces := Split(consumed);
    && pieces.tail.number == lineNumber + 1 && pieces.tail.offset == lineOffset
    && (oversized <==> |pieces.tail.bytes| > RECORD_MAX_BYTES)
    && (!oversized ==> line == pieces.tail.bytes)
  }

  /** Takes bytes of one line, or drops the line once it is too long. */
  method Extend(line0: seq<Byte>, oversized0: bool, run: seq<Byte>, ghost before: seq<Byte>, ghost number: nat,
                ghost offset: nat) returns (line: seq<Byte>, oversized: bool)
    requires NEWLINE !in run && Holds(before, number, offset, line0, oversized0)
    ensures Holds(before + run, number, offset, line, oversized)
    ensures Split(before + run).complete == Split(before).complete
  {
    line, oversized := line0, oversized0;
    SplitRun(before, run);
    if !oversized {
      if |line| + |run| > RECORD_MAX_BYTES {
        oversized, line := true, [];
      } else {
        line := line + run;
      }
    }
  }

  /** Handles a line whose newline was just read. */
  method EndLine(decode: Decoder, source: string, p: Progress, number: nat, offset: nat, line: seq<Byte>,
                 oversized: bool, ghost start: Progress, ghost consumed: seq<Byte>)
    returns (step: Result<Progress, ImportError>)
    requires Holds(consumed, number, offset, line, oversized)
    requires ImportLines(decode, source, start, Split(consumed).complete) == Ok(p)
    ensures step == ImportLines(decode, source, start, Split(consumed + [NEWLINE]).complete)
    ensures oversized ==> step.Err?
    ensures Holds(consumed + [NEWLINE], number + 1, |consumed| + 1, [], false)
  {
    InitOfAppend(consumed, NEWLINE);
    ghost var pieces := Split(consumed);
    InitOfAppend(pieces.complete, pieces.tail);
    if oversized { return Err(Oversized(number + 1)); }
    if Blank(line) { return Ok(p); }
    step := ImportRecord(decode, source, p, offset, number + 1, line);
  }

  /** Imports the unterminated rest if it is a record. */
  method EndInput(decode: Decoder, source: string, r: Reading, ghost start: Progress, ghost content: seq<Byte>)
    returns (end: Result<Progress, ImportError>)
    requires Reads(decode, source, start, content, r) && r.position == |content|
    ensures end == Finish(decode, source, ImportLines(decode, source, start, Split(content).complete), Split(content).tail)
  {
    assert content[..r.position] == content;
    end := Ok(r.progress);
    if !r.oversized && !Blank(r.line) && decode(r.line).Some? {
      end := ImportRecord(decode, source, r.progress, r.lineOffset, r.lineNumber + 1, r.line);
    }
  }

  /** A line that fails makes the whole import fail the same way. */
  lemma ErrorStays(decode: Decoder, source: string, p: Progress, content: seq<Byte>, k: nat)
    requires k <= |content| && ImportLines(decode, source, p, Split(content[..k]).complete).Err?
    ensures ImportLines(decode, source, p, Split(content).complete) ==
            ImportLines(decode, source, p, Split(content[..k]).complete)
  {
    var first, all := Split(content[..k]).complete, Split(content).complete;
    SplitExtends(content[..k], content[k..]);
    assert content[..k] + content[k..] == content;
    assert all == first + all[|first|..];
    LinesConcat(decode, source, p, first, all[|first|..]);
  }

  /** One record: decoded, then skipped if it is ephemeral or any fingerprint knows it. */
  method ImportRecord(decode: Decoder, source: string, p: Progress, offset: nat, number: nat, bytes: seq<Byte>)
    returns (answer: Result<Progress, ImportError>)
    ensures answer == ImportLine(decode, source, p, Line(offset, number, bytes))
  {
    var record := decode(bytes);
    if record.None? { return Err(InvalidRecord(number)); }
    if record.value.durability == LedgerState.Ephemeral { return Ok(p); }
    var mark := RawLineOffset(source, offset, bytes);
    var db := p.db;
    if mark in db.imports { return Ok(p); }
    if LegacyRawLine(bytes) in db.imports {
      db := db.(imports := db.imports[mark := db.imports[LegacyRawLine(bytes)]]);
      return Ok(p.(db := db));
    }
    if LegacyRecord(record.value) in db.imports {
      db := db.(imports := db.imports[mark := db.imports[LegacyRecord(record.value)]]);
      return Ok(p.(db := db));
    }
    if db.sequence >= LedgerState.I64_MAX { return Err(SequenceExhausted); }
    var sequence := db.sequence + 1;
    db := db.(sequence := sequence);
    db := db.(records := db.records + [record.value.(number := sequence)]);
    db := db.(imports := db.imports[mark := sequence]);
    return Ok(Progress(db, p.imported + 1));
  }
}
