/** Compare-and-append by logical identity: the linear scan of the in-memory ledger
    and the indexed path of the SQLite ledger, and why they agree. */
module LedgerUnique {
  import opened Prelude
  import opened LedgerState
  import opened LedgerSequences

  datatype Key = Key(run: RunId, recordType: string, identity: Identity)

  /** The stored digest is injective in the payload, so it is the payload. */
  datatype Mapping = Mapping(number: nat, digest: Payload)

  /** The SQLite ledger: the same records, plus a table of logical identities. */
  datatype Indexed = Indexed(ledger: Ledger, index: map<Key, Mapping>)

  datatype Call = Call(run: RunId, durability: Durability, recordType: string, payload: Payload, now: int)

  /** One identity-field list for each record type written this way. */
  type Schema = map<string, seq<string>>

  type Answer = Result<LedgerRecord, LedgerError>

  ghost predicate StoredAs(ledger: Ledger, number: nat, r: LedgerRecord) {
    r.number == number && exists run :: Has(ledger, run, r)
  }

  /** The join on the number alone, over the records of all Runs. */
  ghost function Joined(ledger: Ledger, number: nat): Option<LedgerRecord> {
    if exists r :: StoredAs(ledger, number, r) then var r :| StoredAs(ledger, number, r); Some(r) else None
  }

  /** The join of an identity with its record; a digest that does not match is an error. */
  ghost function MappedRecord(db: Indexed, key: Key): Result<Option<LedgerRecord>, LedgerError> {
    if key !in db.index then Ok(None)
    else
      var record := Joined(db.ledger, db.index[key].number);
      if record.None? then Ok(None)
      else if record.value.payload != db.index[key].digest then Err(DigestMismatch)
      else Ok(record)
  }

  function BackfillOrInsert(db: Indexed, call: Call, fields: seq<string>, identity: Identity): (Indexed, Answer) {
    var key := Key(call.run, call.recordType, identity);
    var matching := Matching(RecordsFor(db.ledger, call.run), call.recordType, fields, identity);
    if matching.Err? then (db, Err(matching.error))
    else if |matching.value| > 1 then (db, Err(DuplicateIdentity))
    else if |matching.value| == 1 then
      var answer := SamePayload(matching.value[0], call.payload);
      if answer.Err? then (db, answer)
      else (db.(index := db.index[key := Mapping(answer.value.number, call.payload)]), answer)
    else if db.ledger.next >= I64_MAX then (db, Err(SequenceExhausted))
    else
      var record := LedgerRecord(db.ledger.next + 1, call.run, call.now, call.durability, call.recordType, call.payload);
      (Indexed(Store(db.ledger, record), db.index[key := Mapping(record.number, call.payload)]), Ok(record))
  }

  ghost function CompareIndexed(db: Indexed, call: Call, fields: seq<string>): (Indexed, Answer) {
    var identity := CanonicalIdentity(call.payload, fields);
    if call.durability == Ephemeral then (db, Err(EphemeralRecord))
    else if identity.Err? then (db, Err(identity.error))
    else
      var mapped := MappedRecord(db, Key(call.run, call.recordType, identity.value));
      if mapped.Err? then (db, Err(mapped.error))
      else if mapped.value.Some? then (db, SamePayload(mapped.value.value, call.payload))
      else BackfillOrInsert(db, call, fields, identity.value)
  }

  function CompareScan(ledger: Ledger, call: Call, fields: seq<string>): (Ledger, Answer) {
    CompareAndAppend(ledger, call.run, call.durability, call.recordType, fields, call.payload, call.now)
  }

  // ----- at most one record per identity ----------------------------------------------------

  /** Every record of the type has an identity, and no two have the same. */
  ghost predicate Clean(records: seq<LedgerRecord>, recordType: string, fields: seq<string>) {
    && (forall r :: r in records && r.recordType == recordType ==> CanonicalIdentity(r.payload, fields).Ok?)
    && (forall i, j :: 0 <= i < j < |records| && records[i].recordType == recordType == records[j].recordType ==>
                         CanonicalIdentity(records[i].payload, fields) != CanonicalIdentity(records[j].payload, fields))
  }

  ghost predicate CleanLedger(ledger: Ledger, schema: Schema) {
    forall run, t :: t in schema ==> Clean(RecordsFor(ledger, run), t, schema[t])
  }

  predicate Matches(r: LedgerRecord, recordType: string, fields: seq<string>, identity: Identity) {
    r.recordType == recordType && CanonicalIdentity(r.payload, fields) == Ok(identity)
  }

  lemma {:induction false} MatchingMembers(records: seq<LedgerRecord>, recordType: string, fields: seq<string>,
                                           identity: Identity, r: LedgerRecord)
    requires Matching(records, recordType, fields, identity).Ok?
    ensures r in Matching(records, recordType, fields, identity).value <==>
            r in records && Matches(r, recordType, fields, identity)
  {
    if records != [] {
      InitLast(records);
      MatchingMembers(Init(records), recordType, fields, identity, r);
    }
  }

  /** The scan of a clean Run finds no error and at most one record. */
  lemma {:induction false} CleanMatching(records: seq<LedgerRecord>, recordType: string, fields: seq<string>,
                                         identity: Identity)
    requires Clean(records, recordType, fields)
    ensures Matching(records, recordType, fields, identity).Ok?
    ensures |Matching(records, recordType, fields, identity).value| <= 1
  {
    if records != [] {
      CleanInit(records, recordType, fields);
      CleanMatching(Init(records), recordType, fields, identity);
      assert Last(records) in records;
      var found := Matching(Init(records), recordType, fields, identity).value;
      if found != [] {
        MatchingMembers(Init(records), recordType, fields, identity, found[0]);
        LastDiffers(records, recordType, fields, found[0]);
      }
    }
  }

  lemma CleanInit(records: seq<LedgerRecord>, recordType: string, fields: seq<string>)
    requires Clean(records, recordType, fields) && records != []
    ensures Clean(Init(records), recordType, fields)
  {
    assert forall r :: r in Init(records) ==> r in records;
    assert forall i :: 0 <= i < |Init(records)| ==> Init(records)[i] == records[i];
  }

  lemma LastDiffers(records: seq<LedgerRecord>, recordType: string, fields: seq<string>, r: LedgerRecord)
    requires Clean(records, recordType, fields) && records != [] && r in Init(records) && r.recordType == recordType
    ensures Last(records).recordType == recordType ==>
              CanonicalIdentity(r.payload, fields) != CanonicalIdentity(Last(records).payload, fields)
  {
    var k :| 0 <= k < |Init(records)| && Init(records)[k] == r;
    assert records[k] == r;
  }

  lemma CleanAppend(records: seq<LedgerRecord>, record: LedgerRecord, t: string, fields: seq<string>)
    requires Clean(records, t, fields)
    requires record.recordType == t ==>
               CanonicalIdentity(record.payload, fields).Ok? &&
               Matching(records, t, fields, CanonicalIdentity(record.payload, fields).value) == Ok([])
    ensures Clean(records + [record], t, fields)
  {
    if record.recordType == t {
      var identity := CanonicalIdentity(record.payload, fields).value;
      forall r | r in records && r.recordType == t ensures CanonicalIdentity(r.payload, fields) != Ok(identity) {
        MatchingMembers(records, t, fields, identity, r);
      }
      assert forall i :: 0 <= i < |records| ==> records[i] in records;
    }
  }

  /** Comparing and appending keeps at most one record per identity. */
  lemma CompareKeepsClean(ledger: Ledger, call: Call, schema: Schema)
    requires CleanLedger(ledger, schema) && call.recordType in schema
    ensures CleanLedger(CompareScan(ledger, call, schema[call.recordType]).0, schema)
  {
    var fields := schema[call.recordType];
    var after := CompareScan(ledger, call, fields).0;
    if after != ledger {
      var record := LedgerRecord(ledger.next + 1, call.run, call.now, call.durability, call.recordType, call.payload);
      assert after == Store(ledger, record);
      forall run, t | t in schema ensures Clean(RecordsFor(after, run), t, schema[t]) {
        assert Clean(RecordsFor(ledger, run), t, schema[t]);
        if run == call.run {
          CleanAppend(RecordsFor(ledger, run), record, t, schema[t]);
        }
      }
    }
  }

  /** Repeating a stored payload answers with the stored record and changes nothing;
      another payload under its identity is refused and changes nothing. */
  lemma RepeatOrConflict(ledger: Ledger, call: Call, fields: seq<string>, r: LedgerRecord)
    requires Clean(RecordsFor(ledger, call.run), call.recordType, fields) && call.durability != Ephemeral
    requires r in RecordsFor(ledger, call.run) && CanonicalIdentity(call.payload, fields).Ok?
    requires Matches(r, call.recordType, fields, CanonicalIdentity(call.payload, fields).value)
    ensures CompareScan(ledger, call, fields) ==
            (ledger, if r.payload == call.payload then Ok(r) else Err(DifferentPayload))
  {
    var identity := CanonicalIdentity(call.payload, fields).value;
    CleanMatching(RecordsFor(ledger, call.run), call.recordType, fields, identity);
    MatchingMembers(RecordsFor(ledger, call.run), call.recordType, fields, identity, r);
  }

  // ----- the index refines the scan ------------------------------------------------------------

  ghost predicate SoundMapping(ledger: Ledger, key: Key, mapping: Mapping, schema: Schema) {
    && key.recordType in schema
    && exists r :: r in RecordsFor(ledger, key.run) && r.number == mapping.number && r.payload == mapping.digest
                   && Matches(r, key.recordType, schema[key.recordType], key.identity)
  }

  /** Every mapping points to a record with that identity; the table may be partial. */
  ghost predicate SoundIndex(db: Indexed, schema: Schema) {
    forall key :: key in db.index ==> SoundMapping(db.ledger, key, db.index[key], schema)
  }

  lemma JoinFinds(ledger: Ledger, run: RunId, r: LedgerRecord)
    requires Sequenced(ledger) && Has(ledger, run, r)
    ensures Joined(ledger, r.number) == Some(r)
  {
    assert StoredAs(ledger, r.number, r);
    forall x | StoredAs(ledger, r.number, x) ensures x == r {
      var other :| Has(ledger, other, x);
    }
  }

  lemma MappedIs(db: Indexed, key: Key, schema: Schema) returns (r: LedgerRecord)
    requires Sequenced(db.ledger) && SoundIndex(db, schema) && key in db.index
    ensures key.recordType in schema && r in RecordsFor(db.ledger, key.run)
    ensures Matches(r, key.recordType, schema[key.recordType], key.identity) && MappedRecord(db, key) == Ok(Some(r))
    ensures r.number == db.index[key].number
  {
    assert SoundMapping(db.ledger, key, db.index[key], schema);
    r :| r in RecordsFor(db.ledger, key.run) && r.number == db.index[key].number && r.payload == db.index[key].digest
         && Matches(r, key.recordType, schema[key.recordType], key.identity);
    assert Has(db.ledger, key.run, r);
    JoinFinds(db.ledger, key.run, r);
  }

  /** With any sound partial index over a clean ledger, one call has the same answer
      and leaves the same records on both paths. */
  lemma OneCallAgrees(db: Indexed, call: Call, schema: Schema)
    requires Sequenced(db.ledger) && SoundIndex(db, schema) && CleanLedger(db.ledger, schema)
    requires call.recordType in schema && db.ledger.next < I64_MAX
    ensures var fields := schema[call.recordType];
            var (db', indexed) := CompareIndexed(db, call, fields);
            (db'.ledger, indexed) == CompareScan(db.ledger, call, fields)
  {
    var fields := schema[call.recordType];
    assert Clean(RecordsFor(db.ledger, call.run), call.recordType, fields);
    var identity := CanonicalIdentity(call.payload, fields);
    if call.durability != Ephemeral && identity.Ok? {
      var key := Key(call.run, call.recordType, identity.value);
      if key in db.index {
        var r := MappedIs(db, key, schema);
        RepeatOrConflict(db.ledger, call, fields, r);
      }
    }
  }

  lemma MappingSurvives(ledger: Ledger, record: LedgerRecord, key: Key, mapping: Mapping, schema: Schema)
    requires SoundMapping(ledger, key, mapping, schema)
    ensures SoundMapping(Store(ledger, record), key, mapping, schema)
  {
    var r :| r in RecordsFor(ledger, key.run) && r.number == mapping.number && r.payload == mapping.digest
             && Matches(r, key.recordType, schema[key.recordType], key.identity);
    assert r in RecordsFor(Store(ledger, record), key.run);
  }

  lemma BackfillKeepsSound(db: Indexed, call: Call, schema: Schema, identity: Identity)
    requires SoundIndex(db, schema) && call.recordType in schema
    requires CanonicalIdentity(call.payload, schema[call.recordType]) == Ok(identity)
    ensures SoundIndex(BackfillOrInsert(db, call, schema[call.recordType], identity).0, schema)
  {
    var fields := schema[call.recordType];
    var (db', answer) := BackfillOrInsert(db, call, fields, identity);
    var matching := Matching(RecordsFor(db.ledger, call.run), call.recordType, fields, identity);
    if answer.Ok? && |matching.value| == 1 {
      MatchingMembers(RecordsFor(db.ledger, call.run), call.recordType, fields, identity, matching.value[0]);
    } else if answer.Ok? {
      assert db'.ledger == Store(db.ledger, answer.value);
      assert answer.value in RecordsFor(db'.ledger, call.run);
      forall key | key in db.index ensures SoundMapping(db'.ledger, key, db.index[key], schema) {
        MappingSurvives(db.ledger, answer.value, key, db.index[key], schema);
      }
    }
  }

  lemma CallKeepsSound(db: Indexed, call: Call, schema: Schema)
    requires SoundIndex(db, schema) && call.recordType in schema
    ensures SoundIndex(CompareIndexed(db, call, schema[call.recordType]).0, schema)
  {
    var identity := CanonicalIdentity(call.payload, schema[call.recordType]);
    if identity.Ok? {
      BackfillKeepsSound(db, call, schema, identity.value);
    }
  }

  ghost predicate Mapped(db: Indexed, call: Call, fields: seq<string>) {
    var identity := CanonicalIdentity(call.payload, fields);
    call.durability != Ephemeral && identity.Ok? && Key(call.run, call.recordType, identity.value) in db.index
  }

  /** Without a clean ledger: a call agrees on both paths, in answer and records, exactly
      when its identity is not mapped, or the scan would find that one record and no
      record it cannot identify. */
  lemma CallAgreesExactly(db: Indexed, call: Call, schema: Schema)
    requires Sequenced(db.ledger) && SoundIndex(db, schema) && call.recordType in schema && db.ledger.next < I64_MAX
    ensures var fields := schema[call.recordType];
            var (db', indexed) := CompareIndexed(db, call, fields);
            (db'.ledger, indexed) == CompareScan(db.ledger, call, fields) <==>
            (Mapped(db, call, fields) ==>
               var matching := Matching(RecordsFor(db.ledger, call.run), call.recordType, fields,
                                        CanonicalIdentity(call.payload, fields).value);
               matching.Ok? && |matching.value| == 1)
  {
    var fields := schema[call.recordType];
    if Mapped(db, call, fields) {
      MappedCallAgreesExactly(db, call, schema);
    }
  }

  lemma MappedCallAgreesExactly(db: Indexed, call: Call, schema: Schema)
    requires Sequenced(db.ledger) && SoundIndex(db, schema) && call.recordType in schema
    requires Mapped(db, call, schema[call.recordType])
    ensures var fields := schema[call.recordType];
            var identity := CanonicalIdentity(call.payload, fields).value;
            var matching := Matching(RecordsFor(db.ledger, call.run), call.recordType, fields, identity);
            var (db', indexed) := CompareIndexed(db, call, fields);
            (db'.ledger, indexed) == CompareScan(db.ledger, call, fields) <==> matching.Ok? && |matching.value| == 1
  {
    var fields := schema[call.recordType];
    var identity := CanonicalIdentity(call.payload, fields).value;
    var records := RecordsFor(db.ledger, call.run);
    var r := MappedIs(db, Key(call.run, call.recordType, identity), schema);
    var matching := Matching(records, call.recordType, fields, identity);
    if matching.Ok? {
      MatchingMembers(records, call.recordType, fields, identity, r);
    } else {
      MatchingErrors(records, call.recordType, fields, identity);
    }
  }

  lemma {:induction false} MatchingErrors(records: seq<LedgerRecord>, recordType: string, fields: seq<string>,
                                          identity: Identity)
    ensures var m := Matching(records, recordType, fields, identity);
            m.Err? ==> m.error != DifferentPayload
  {
    if records != [] {
      MatchingErrors(Init(records), recordType, fields, identity);
    }
  }

  // ----- whole call sequences ---------------------------------------------------------------------

  datatype Request =
    | Compare(call: Call)
    | Other(op: Operation)   // anything that stores no record of these types
    | Delete(run: RunId)     // drops the Run's records and, by cascade, its mappings

  function DropRun(index: map<Key, Mapping>, run: RunId): map<Key, Mapping> {
    map key | key in index && key.run != run :: index[key]
  }

  function ScanStep(ledger: Ledger, request: Request, schema: Schema): (Ledger, Option<Answer>) {
    match request
    case Compare(call) =>
      if call.recordType in schema then
        var (after, answer) := CompareScan(ledger, call, schema[call.recordType]); (after, Some(answer))
      else (ledger, None)
    case Other(op) => (Step(ledger, op).0, None)
    case Delete(run) => (DeleteRun(ledger, run), None)
  }

  ghost function IndexedStep(db: Indexed, request: Request, schema: Schema): (Indexed, Option<Answer>) {
    match request
    case Compare(call) =>
      if call.recordType in schema then
        var (after, answer) := CompareIndexed(db, call, schema[call.recordType]); (after, Some(answer))
      else (db, None)
    case Other(op) => (db.(ledger := Step(db.ledger, op).0), None)
    case Delete(run) => (Indexed(DeleteRun(db.ledger, run), DropRun(db.index, run)), None)
  }

  function ScanRun(ledger: Ledger, requests: seq<Request>, schema: Schema): (Ledger, seq<Option<Answer>>) {
    if requests == [] then (ledger, [])
    else
      var (before, answers) := ScanRun(ledger, Init(requests), schema);
      var (after, answer) := ScanStep(before, Last(requests), schema);
      (after, answers + [answer])
  }

  ghost function IndexedRun(db: Indexed, requests: seq<Request>, schema: Schema): (Indexed, seq<Option<Answer>>) {
    if requests == [] then (db, [])
    else
      var (before, answers) := IndexedRun(db, Init(requests), schema);
      var (after, answer) := IndexedStep(before, Last(requests), schema);
      (after, answers + [answer])
  }

  /** Other writers keep off the types of the schema, and the counter is below the
      signed limit of the database. */
  ghost predicate Permitted(ledger: Ledger, request: Request, schema: Schema) {
    && ledger.next < I64_MAX
    && (request.Other? ==>
          && !request.op.OpDelete?
          && forall e :: e in Written(ledger, request.op) ==> e.recordType !in schema)
  }

  ghost predicate PermittedRun(ledger: Ledger, requests: seq<Request>, schema: Schema) {
    forall k :: 0 <= k < |requests| ==> Permitted(ScanRun(ledger, requests[..k], schema).0, requests[k], schema)
  }

  lemma {:induction false} StoreAllKeepsClean(ledger: Ledger, run: RunId, pending: seq<Extra>, now: int, schema: Schema)
    requires CleanLedger(ledger, schema) && forall e :: e in pending ==> e.recordType !in schema
    ensures CleanLedger(StoreAll(ledger, run, pending, now), schema)
  {
    if pending != [] {
      InitLast(pending);
      assert forall e :: e in Init(pending) ==> e in pending;
      StoreAllKeepsClean(ledger, run, Init(pending), now, schema);
      var before, e := StoreAll(ledger, run, Init(pending), now), Last(pending);
      assert e in pending;
      var record := LedgerRecord(before.next + 1, run, now, e.durability, e.recordType, e.payload);
      forall x, t | t in schema ensures Clean(RecordsFor(Store(before, record), x), t, schema[t]) {
        assert Clean(RecordsFor(before, x), t, schema[t]);
        if x == run {
          CleanAppend(RecordsFor(before, run), record, t, schema[t]);
        }
      }
    }
  }

  lemma {:induction false} StoreAllKeepsMapping(ledger: Ledger, run: RunId, pending: seq<Extra>, now: int, key: Key,
                                                mapping: Mapping, schema: Schema)
    requires SoundMapping(ledger, key, mapping, schema)
    ensures SoundMapping(StoreAll(ledger, run, pending, now), key, mapping, schema)
  {
    if pending != [] {
      StoreAllKeepsMapping(ledger, run, Init(pending), now, key, mapping, schema);
      var before, e := StoreAll(ledger, run, Init(pending), now), Last(pending);
      MappingSurvives(before, LedgerRecord(before.next + 1, run, now, e.durability, e.recordType, e.payload),
                      key, mapping, schema);
    }
  }

  ghost predicate Consistent(db: Indexed, schema: Schema) {
    Sequenced(db.ledger) && SoundIndex(db, schema) && CleanLedger(db.ledger, schema)
  }

  lemma LeasesDoNotMatter(db: Indexed, schema: Schema, leases: map<RunId, StoredLease>)
    requires Consistent(db, schema)
    ensures Consistent(db.(ledger := db.ledger.(leases := leases)), schema)
  {
    var l := db.ledger.(leases := leases);
    LeasesIrrelevant(db.ledger, db.ledger, leases);
    CleanWithoutLeases(db.ledger, schema, leases);
    forall key | key in db.index ensures SoundMapping(l, key, db.index[key], schema) {
      assert SoundMapping(db.ledger, key, db.index[key], schema);
    }
  }

  lemma CleanWithoutLeases(ledger: Ledger, schema: Schema, leases: map<RunId, StoredLease>)
    requires CleanLedger(ledger, schema)
    ensures CleanLedger(ledger.(leases := leases), schema)
  {
    forall run, t | t in schema ensures Clean(RecordsFor(ledger.(leases := leases), run), t, schema[t]) {
      assert Clean(RecordsFor(ledger, run), t, schema[t]);
    }
  }

  lemma OtherKeepsConsistent(db: Indexed, op: Operation, schema: Schema)
    requires Consistent(db, schema) && Permitted(db.ledger, Other(op), schema)
    ensures Consistent(db.(ledger := Step(db.ledger, op).0), schema)
  {
    StepStores(db.ledger, op);
    var stored := StoreAll(db.ledger, Target(op), Written(db.ledger, op), Timestamp(op));
    StoreAllKeeps(db.ledger, Target(op), Written(db.ledger, op), Timestamp(op));
    StoreAllKeepsClean(db.ledger, Target(op), Written(db.ledger, op), Timestamp(op), schema);
    forall key | key in db.index ensures SoundMapping(stored, key, db.index[key], schema) {
      StoreAllKeepsMapping(db.ledger, Target(op), Written(db.ledger, op), Timestamp(op), key, db.index[key], schema);
    }
    LeasesDoNotMatter(db.(ledger := stored), schema, Step(db.ledger, op).0.leases);
  }

  lemma DeleteKeepsClean(ledger: Ledger, run: RunId, schema: Schema)
    requires CleanLedger(ledger, schema)
    ensures CleanLedger(DeleteRun(ledger, run), schema)
  {
    forall x, t | t in schema ensures Clean(RecordsFor(DeleteRun(ledger, run), x), t, schema[t]) {
      assert Clean(RecordsFor(ledger, x), t, schema[t]);
    }
  }

  lemma DeleteKeepsMapping(ledger: Ledger, run: RunId, key: Key, mapping: Mapping, schema: Schema)
    requires SoundMapping(ledger, key, mapping, schema) && key.run != run
    ensures SoundMapping(DeleteRun(ledger, run), key, mapping, schema)
  {
    assert RecordsFor(DeleteRun(ledger, run), key.run) == RecordsFor(ledger, key.run);
  }

  lemma DeleteKeepsConsistent(db: Indexed, run: RunId, schema: Schema)
    requires Consistent(db, schema)
    ensures Consistent(Indexed(DeleteRun(db.ledger, run), DropRun(db.index, run)), schema)
  {
    DeleteKeeps(db.ledger, run);
    DeleteKeepsClean(db.ledger, run, schema);
    forall key | key in DropRun(db.index, run) ensures SoundMapping(DeleteRun(db.ledger, run), key, db.index[key], schema) {
      DeleteKeepsMapping(db.ledger, run, key, db.index[key], schema);
    }
  }

  lemma CallKeepsConsistent(db: Indexed, call: Call, schema: Schema)
    requires Consistent(db, schema) && call.recordType in schema && db.ledger.next < I64_MAX
    ensures Consistent(CompareIndexed(db, call, schema[call.recordType]).0, schema)
  {
    var fields := schema[call.recordType];
    OneCallAgrees(db, call, schema);
    CallKeepsSound(db, call, schema);
    CompareKeepsClean(db.ledger, call, schema);
    var op := OpCompare(call.run, call.durability, call.recordType, fields, call.payload, call.now);
    StepKeepsSequences(db.ledger, op);
    assert Step(db.ledger, op).0 == CompareScan(db.ledger, call, fields).0;
  }

  /** For every sequence of calls, other writes and deletions, and any sound partial
      index to start from, the indexed ledger gives the answers of the scanning one
      and ends with the same records. */
  lemma {:induction false} IndexRefinesScan(db: Indexed, requests: seq<Request>, schema: Schema)
    requires Consistent(db, schema) && PermittedRun(db.ledger, requests, schema)
    ensures var (db', answers) := IndexedRun(db, requests, schema);
            Consistent(db', schema) && (db'.ledger, answers) == ScanRun(db.ledger, requests, schema)
  {
    if requests != [] {
      var before, last := Init(requests), Last(requests);
      assert requests[..|requests| - 1] == before;
      assert forall k :: 0 <= k < |before| ==> before[..k] == requests[..k] && before[k] == requests[k];
      IndexRefinesScan(db, before, schema);
      var (mid, answers) := IndexedRun(db, before, schema);
      assert Permitted(mid.ledger, last, schema);
      match last {
        case Compare(call) =>
          if call.recordType in schema {
            OneCallAgrees(mid, call, schema);
            CallKeepsConsistent(mid, call, schema);
          }
        case Other(op) => OtherKeepsConsistent(mid, op, schema);
        case Delete(run) => DeleteKeepsConsistent(mid, run, schema);
      }
    }
  }
}
