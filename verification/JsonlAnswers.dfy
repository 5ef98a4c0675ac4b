/** What an import does with every line, on any database: which lines are faulty, which
    error is answered, and what a line adds that was seen by an earlier version. */
module JsonlAnswers {
  import opened Prelude
  import LedgerState
  import opened JsonlImport
  import opened JsonlTheorems

  /** A byte that is not a tab, line feed, form feed, carriage return or space. */
  predicate Inked(b: Byte) {
    b != 9 && b != 10 && b != 12 && b != 13 && b != 32
  }

  predicate HasText(line: Line) {
    exists b :: b in line.bytes && Inked(b)
  }

  /** A complete line of more than 8 388 608 bytes, or one with text that does not decode. */
  predicate Faulty(decode: Decoder, line: Line) {
    |line.bytes| > 8_388_608 || (HasText(line) && decode(line.bytes).None?)
  }

  lemma BlankExactly(line: Line)
    ensures Blank(line.bytes) <==> !HasText(line)
  {
  }

  // ----- one line ---------------------------------------------------------------------------------

  /** The number an earlier version stored the line's record under, if it did: it looked
      at the line first and then at the record. */
  predicate StoredBefore(db: Database, line: Line, record: Record) {
    LegacyRawLine(line.bytes) in db.imports || LegacyRecord(record) in db.imports
  }

  function StoredAs(db: Database, line: Line, record: Record): nat
    requires StoredBefore(db, line, record)
  {
    if LegacyRawLine(line.bytes) in db.imports then db.imports[LegacyRawLine(line.bytes)]
    else db.imports[LegacyRecord(record)]
  }

  /** A decoded line adds a record exactly when the record is durable and neither this
      version nor an earlier one imported it. The record gets the next number, and the line's
      fingerprint is bound to the number of its record, old or new. */
  lemma LineExactly(decode: Decoder, source: string, p: Progress, line: Line, record: Record)
    requires decode(line.bytes) == Some(record)
    ensures var r := ImportLine(decode, source, p, line);
            var print_ := RawLineOffset(source, line.offset, line.bytes);
            if record.durability.Ephemeral? || print_ in p.db.imports then r == Ok(p)
            else if StoredBefore(p.db, line, record) then
              && r.Ok? && r.value.imported == p.imported
              && r.value.db.records == p.db.records && r.value.db.sequence == p.db.sequence
              && r.value.db.imports == p.db.imports[print_ := StoredAs(p.db, line, record)]
            else if p.db.sequence < 0x7FFF_FFFF_FFFF_FFFF then
              && r.Ok? && r.value.imported == p.imported + 1
              && r.value.db.records == p.db.records + [record.(number := p.db.sequence + 1)]
              && r.value.db.sequence == p.db.sequence + 1
              && r.value.db.imports == p.db.imports[print_ := p.db.sequence + 1]
            else r == Err(SequenceExhausted)
  {
  }

  /** A complete line is refused exactly when it is faulty, under its own number, unless
      there is no sequence number left for it; a line without text is passed over. */
  lemma CompleteExactly(decode: Decoder, source: string, p: Progress, line: Line)
    ensures var r := ImportComplete(decode, source, p, line);
            && (Faulty(decode, line) ==>
                  r == Err(if |line.bytes| > 8_388_608 then Oversized(line.number) else InvalidRecord(line.number)))
            && (!Faulty(decode, line) ==> r.Ok? || r == Err(SequenceExhausted))
            && (!Faulty(decode, line) && p.db.sequence < 0x7FFF_FFFF_FFFF_FFFF ==> r.Ok?)
            && (!Faulty(decode, line) && !HasText(line) ==> r == Ok(p))
            && (r.Ok? ==> r.value.db.sequence <= p.db.sequence + 1)
  {
    BlankExactly(line);
  }

  // ----- whole imports -------------------------------------------------------------------------------

  ghost predicate Clean(decode: Decoder, lines: seq<Line>) {
    forall k :: 0 <= k < |lines| ==> !Faulty(decode, lines[k])
  }

  /** The error is that of the first faulty line. */
  ghost predicate Names(decode: Decoder, lines: seq<Line>, error: ImportError, k: nat) {
    && k < |lines| && Faulty(decode, lines[k]) && Clean(decode, lines[..k])
    && error == if |lines[k].bytes| > 8_388_608 then Oversized(lines[k].number) else InvalidRecord(lines[k].number)
  }

  lemma CleanInit(decode: Decoder, lines: seq<Line>)
    requires lines != []
    ensures Clean(decode, lines) <==> Clean(decode, Init(lines)) && !Faulty(decode, Last(lines))
  {
    assert forall k :: 0 <= k < |lines| - 1 ==> Init(lines)[k] == lines[k];
  }

  lemma {:induction false} LinesExactly(decode: Decoder, source: string, p: Progress, lines: seq<Line>)
    ensures var r := ImportLines(decode, source, p, lines);
            && (r.Ok? ==> Clean(decode, lines) && r.value.db.sequence <= p.db.sequence + |lines|)
            && (r.Err? ==> r.error.SequenceExhausted? || exists k: nat :: Names(decode, lines, r.error, k))
            && (p.db.sequence + |lines| <= 0x7FFF_FFFF_FFFF_FFFF ==> (r.Ok? <==> Clean(decode, lines)))
  {
    if lines != [] {
      LinesExactly(decode, source, p, Init(lines));
      CleanInit(decode, lines);
      var before := ImportLines(decode, source, p, Init(lines));
      if before.Ok? {
        CompleteExactly(decode, source, before.value, Last(lines));
        assert lines[..|lines| - 1] == Init(lines);
        assert Faulty(decode, Last(lines)) ==>
               Names(decode, lines, ImportLines(decode, source, p, lines).error, |lines| - 1);
      } else if !before.error.SequenceExhausted? {
        var k: nat :| Names(decode, Init(lines), before.error, k);
        assert Init(lines)[..k] == lines[..k] && Init(lines)[k] == lines[k];
        assert Names(decode, lines, before.error, k);
      }
    }
  }

  /** With sequence numbers left for all its lines, a source is imported exactly when no
      complete line is faulty, whatever its unterminated rest is; otherwise the error is
      that of the first faulty line, and the answer holds no database to store. */
  lemma ImportsExactly(decode: Decoder, source: string, db: Database, content: seq<Byte>)
    requires db.sequence + |Split(content).complete| < 0x7FFF_FFFF_FFFF_FFFF
    ensures var r, lines := Import(decode, source, db, content), Split(content).complete;
            && (r.Ok? <==> Clean(decode, lines))
            && (r.Err? ==> exists k: nat :: Names(decode, lines, r.error, k))
  {
    var pieces := Split(content);
    var lines := ImportLines(decode, source, Progress(db, 0), pieces.complete);
    LinesExactly(decode, source, Progress(db, 0), pieces.complete);
    if lines.Ok? {
      TailExactly(decode, source, lines.value, pieces.tail);
    } else {
      NotExhausted(decode, source, Progress(db, 0), pieces.complete);
    }
  }

  lemma {:induction false} NotExhausted(decode: Decoder, source: string, p: Progress, lines: seq<Line>)
    requires p.db.sequence + |lines| <= 0x7FFF_FFFF_FFFF_FFFF
    ensures ImportLines(decode, source, p, lines) != Err(SequenceExhausted)
  {
    if lines != [] {
      NotExhausted(decode, source, p, Init(lines));
      LinesExactly(decode, source, p, Init(lines));
      var before := ImportLines(decode, source, p, Init(lines));
      if before.Ok? {
        CompleteExactly(decode, source, before.value, Last(lines));
      }
    }
  }

  /** The unterminated rest counts exactly when it has text, is no longer than a record may
      be and decodes; otherwise it is left for a later import. */
  lemma TailExactly(decode: Decoder, source: string, p: Progress, tail: Line)
    ensures var r, counts := ImportTail(decode, source, p, tail),
                             HasText(tail) && |tail.bytes| <= 8_388_608 && decode(tail.bytes).Some?;
            && (counts ==> r == ImportLine(decode, source, p, tail))
            && (!counts ==> r == Ok(p))
            && (p.db.sequence < 0x7FFF_FFFF_FFFF_FFFF ==> r.Ok?)
  {
    BlankExactly(tail);
  }
}
