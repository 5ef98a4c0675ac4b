/** Importing a legacy JSONL ledger: a newline split of the whole content, and one
    fingerprint per imported line. Decoding a line is a parameter. */
module JsonlImport {
  import opened Prelude
  import LedgerState

  type Byte = b: nat | b < 256

  const NEWLINE: Byte := 10
  const RECORD_MAX_BYTES: nat := 8 * 1024 * 1024

  type Record = LedgerState.LedgerRecord

  type Decoder = seq<Byte> -> Option<Record>

  /** A line with where it starts and which line it is, counted from one. */
  datatype Line = Line(offset: nat, number: nat, bytes: seq<Byte>)

  /** Digests are taken to be injective. The two legacy forms were written by earlier
      versions: one over the line alone, one over the decoded record. */
  datatype Fingerprint =
    | RawLineOffset(source: string, offset: nat, bytes: seq<Byte>)
    | LegacyRawLine(bytes: seq<Byte>)
    | LegacyRecord(record: Record)

  datatype Database = Database(records: seq<Record>, sequence: nat, imports: map<Fingerprint, nat>)

  datatype ImportError = Oversized(number: nat) | InvalidRecord(number: nat) | SequenceExhausted

  datatype Progress = Progress(db: Database, imported: nat)

  // ----- the plain split --------------------------------------------------------------------

  /** The complete lines, and the unterminated rest as the line it would be. */
  datatype Pieces = Pieces(complete: seq<Line>, tail: Line)

  function Split(content: seq<Byte>): Pieces {
    if content == [] then Pieces([], Line(0, 1, []))
    else
      var before := Split(Init(content));
      if Last(content) == NEWLINE
      then Pieces(before.complete + [before.tail], Line(|content|, before.tail.number + 1, []))
      else before.(tail := before.tail.(bytes := before.tail.bytes + [Last(content)]))
  }

  /** The content a list of complete lines stands for. */
  function Join(lines: seq<Line>): seq<Byte> {
    if lines == [] then [] else Join(Init(lines)) + Last(lines).bytes + [NEWLINE]
  }

  ghost predicate Placed(lines: seq<Line>, k: nat)
    requires k < |lines|
  {
    lines[k].number == k + 1 && lines[k].offset == |Join(lines[..k])| && NEWLINE !in lines[k].bytes
  }

  /** Joining the pieces gives the content back, no piece holds a newline, and each one
      is numbered and placed where it starts. */
  lemma {:induction false} SplitIsExact(content: seq<Byte>)
    ensures var p := Split(content);
            && Join(p.complete) + p.tail.bytes == content
            && (forall k :: 0 <= k < |p.complete| ==> Placed(p.complete, k))
            && NEWLINE !in p.tail.bytes && p.tail.number == |p.complete| + 1 && p.tail.offset == |Join(p.complete)|
  {
    if content != [] {
      SplitIsExact(Init(content));
      InitLast(content);
      var before, p := Split(Init(content)), Split(content);
      if Last(content) == NEWLINE {
        InitOfAppend(before.complete, before.tail);
        assert Join(p.complete) == Join(before.complete) + before.tail.bytes + [NEWLINE] == content;
        forall k | 0 <= k < |p.complete| ensures Placed(p.complete, k) {
          if k < |before.complete| {
            assert Placed(before.complete, k) && p.complete[..k] == before.complete[..k];
          } else {
            assert p.complete[..k] == before.complete;
          }
        }
      } else {
        assert Join(before.complete) + (before.tail.bytes + [Last(content)]) ==
               Join(before.complete) + before.tail.bytes + [Last(content)];
      }
    }
  }

  // ----- importing one line --------------------------------------------------------------------

  predicate IsWhitespace(b: Byte) {
    b == 9 || b == 10 || b == 12 || b == 13 || b == 32
  }

  predicate Blank(bytes: seq<Byte>) {
    forall b :: b in bytes ==> IsWhitespace(b)
  }

  function Print(source: string, line: Line): Fingerprint {
    RawLineOffset(source, line.offset, line.bytes)
  }

  /** A fingerprint of an earlier version that covers this line. */
  function LegacyPrint(db: Database, line: Line, record: Record): Option<nat> {
    if LegacyRawLine(line.bytes) in db.imports then Some(db.imports[LegacyRawLine(line.bytes)])
    else if LegacyRecord(record) in db.imports then Some(db.imports[LegacyRecord(record)])
    else None
  }

  function Insert(db: Database, source: string, line: Line, record: Record): Database {
    Database(db.records + [record.(number := db.sequence + 1)], db.sequence + 1,
             db.imports[Print(source, line) := db.sequence + 1])
  }

  function ImportLine(decode: Decoder, source: string, p: Progress, line: Line): Result<Progress, ImportError> {
    var record := decode(line.bytes);
    if record.None? then Err(InvalidRecord(line.number))
    else if record.value.durability == LedgerState.Ephemeral then Ok(p)
    else if Print(source, line) in p.db.imports then Ok(p)
    else
      var legacy := LegacyPrint(p.db, line, record.value);
      if legacy.Some?
      then Ok(p.(db := p.db.(imports := p.db.imports[Print(source, line) := legacy.value])))
      else if p.db.sequence >= LedgerState.I64_MAX then Err(SequenceExhausted)
      else Ok(Progress(Insert(p.db, source, line, record.value), p.imported + 1))
  }

  /** A line that ends in a newline. */
  function ImportComplete(decode: Decoder, source: string, p: Progress, line: Line): Result<Progress, ImportError> {
    if |line.bytes| > RECORD_MAX_BYTES then Err(Oversized(line.number))
    else if Blank(line.bytes) then Ok(p)
    else ImportLine(decode, source, p, line)
  }

  function ImportLines(decode: Decoder, source: string, p: Progress, lines: seq<Line>): Result<Progress, ImportError> {
    if lines == [] then Ok(p)
    else
      var before := ImportLines(decode, source, p, Init(lines));
      if before.Err? then before else ImportComplete(decode, source, before.value, Last(lines))
  }

  /** Whether the unterminated rest counts as a record. */
  predicate Eligible(decode: Decoder, tail: Line) {
    |tail.bytes| <= RECORD_MAX_BYTES && !Blank(tail.bytes) && decode(tail.bytes).Some?
  }

  function ImportTail(decode: Decoder, source: string, p: Progress, tail: Line): Result<Progress, ImportError> {
    if Eligible(decode, tail) then ImportLine(decode, source, p, tail) else Ok(p)
  }

  function Finish(decode: Decoder, source: string, lines: Result<Progress, ImportError>, tail: Line):
    Result<Progress, ImportError>
  {
    if lines.Err? then lines else ImportTail(decode, source, lines.value, tail)
  }

  function Import(decode: Decoder, source: string, db: Database, content: seq<Byte>): Result<Progress, ImportError> {
    var pieces := Split(content);
    Finish(decode, source, ImportLines(decode, source, Progress(db, 0), pieces.complete), pieces.tail)
  }
}
