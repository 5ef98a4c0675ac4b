/** Reachable ledgers at the edges of what the ledger promises. */
module LedgerExamples {
  import opened Prelude
  import opened LedgerState
  import opened LedgerSequences
  import opened LedgerLeases
  import opened LedgerMarks
  import opened LedgerUnique

  const NOTE := Document(map["id" := "1"])
  const APPEND := OpAppend("r", SyncCritical, "note", NOTE, 0)

  // ----- the counter at its limit -------------------------------------------------------------

  function Appends(n: nat): seq<Operation> {
    if n == 0 then [] else Appends(n - 1) + [APPEND]
  }

  lemma {:induction false} AppendsCount(n: nat)
    requires n <= U64_MAX
    ensures Sequenced(Run(NewLedger, Appends(n))) && Run(NewLedger, Appends(n)).next == n
  {
    if n > 0 {
      AppendsCount(n - 1);
      InitOfAppend(Appends(n - 1), APPEND);
      StepKeepsSequences(Run(NewLedger, Appends(n - 1)), APPEND);
    }
  }

  /** After as many appends as there are numbers the ledger is still sequenced, and one
      more append stores a record under a number that is not new. */
  lemma LimitBreaksSequences()
    ensures var full := Run(NewLedger, Appends(U64_MAX));
            Sequenced(full) && !(Sequenced(Step(full, APPEND).0) && Extends(full, Step(full, APPEND).0))
  {
    AppendsCount(U64_MAX);
    AppendKeepsSequencesExactly(Run(NewLedger, Appends(U64_MAX)), "r", SyncCritical, "note", NOTE, 0);
  }

  // ----- deleting a leased Run ------------------------------------------------------------------

  const FIRST := LedgerRecord(1, "r", 0, SyncCritical, "note", NOTE)
  const TOKEN := Token("r", "o", 1, LEASE_MILLIS, 1)

  lemma FirstAppend(ledger: Ledger)
    requires ledger == NewLedger
    ensures Step(ledger, APPEND).0 == Ledger(map["r" := [FIRST]], 1, map[])
  {
    assert RecordsFor(ledger, "r") + [FIRST] == [FIRST];
  }

  lemma LeaseAndCommit(ledger: Ledger)
    requires ledger == Ledger(map["r" := [FIRST]], 1, map[])
    ensures var leased := Step(ledger, OpAcquire("r", "o", 0)).0;
            Step(leased, OpCommitRestore(TOKEN, 1, 0)).0 ==
            ledger.(leases := map["r" := StoredLease(Some("o"), 1, 0, LEASE_MILLIS, 1, 1)])
  {
  }

  /** Append, acquire, commit and delete: the lease survives with marks above the last
      number of the Run, which is zero again. */
  lemma DeletionLeavesMarks()
    ensures var ops := [APPEND, OpAcquire("r", "o", 0), OpCommitRestore(TOKEN, 1, 0), OpDelete("r")];
            MarkedAt(Run(NewLedger, Init(ops)), "r") && !MarkedAt(Run(NewLedger, ops), "r")
  {
    var a, b, c, d := APPEND, OpAcquire("r", "o", 0), OpCommitRestore(TOKEN, 1, 0), OpDelete("r");
    assert Init([a, b, c, d]) == [a, b, c] && Init([a, b, c]) == [a, b] && Init([a, b]) == [a] && Init([a]) == [];
    assert Run(NewLedger, []) == NewLedger;
    FirstAppend(NewLedger);
    LeaseAndCommit(Run(NewLedger, [a]));
  }

  // ----- a raw append behind a mapping -------------------------------------------------------------

  const SCHEMA: Schema := map["note" := ["id"]]
  const CALL := Call("r", SyncCritical, "note", NOTE, 0)
  const SECOND := FIRST.(number := 2)

  lemma NoteIdentity()
    ensures CanonicalIdentity(NOTE, ["id"]) == Ok(map["id" := "1"])
  {
    var fields := map["id" := "1"];
    assert Elements(["id"]) == {"id"} && |{"id"}| == 1 && fields.Keys == {"id"};
    assert (map f | f in Elements(["id"]) :: fields[f]) == fields;
  }

  /** Compare-and-append, then a raw append of the same type and identity, then the same
      compare-and-append again. */
  const REQUESTS := [Compare(CALL), Other(APPEND)]

  lemma IndexedByCall(db: Indexed)
    requires db == Indexed(NewLedger, map[])
    ensures IndexedStep(db, Compare(CALL), SCHEMA).0 ==
            Indexed(Ledger(map["r" := [FIRST]], 1, map[]),
                    map[Key("r", "note", map["id" := "1"]) := Mapping(1, NOTE)])
  {
    NoteIdentity();
    assert RecordsFor(db.ledger, "r") + [FIRST] == [FIRST];
  }

  lemma TwoMatch()
    ensures Matching([FIRST, SECOND], "note", ["id"], map["id" := "1"]) == Ok([FIRST, SECOND])
  {
    NoteIdentity();
    assert Init([FIRST, SECOND]) == [FIRST] && Init([FIRST]) == [];
    assert Matching([], "note", ["id"], map["id" := "1"]) == Ok([]) && [] + [FIRST] == [FIRST];
    assert Matching([FIRST], "note", ["id"], map["id" := "1"]) == Ok([FIRST]);
    assert [FIRST] + [SECOND] == [FIRST, SECOND];
  }

  lemma AfterRequests()
    ensures IndexedRun(Indexed(NewLedger, map[]), REQUESTS, SCHEMA).0 ==
            Indexed(Ledger(map["r" := [FIRST, SECOND]], 2, map[]),
                    map[Key("r", "note", map["id" := "1"]) := Mapping(1, NOTE)])
  {
    var db := Indexed(NewLedger, map[]);
    assert Init(REQUESTS) == [Compare(CALL)] && Init([Compare(CALL)]) == [];
    assert IndexedRun(db, [], SCHEMA) == (db, []);
    IndexedByCall(db);
    assert [FIRST] + [SECOND] == [FIRST, SECOND];
  }

  lemma TwoAreSequenced(ledger: Ledger)
    requires ledger == Ledger(map["r" := [FIRST, SECOND]], 2, map[])
    ensures Sequenced(ledger)
  {
    forall run, r | Has(ledger, run, r) ensures run == "r" && (r == FIRST || r == SECOND) {}
  }

  /** The index answers with the mapped record where the scan reports a duplicate. */
  lemma RawAppendBreaksIndex()
    ensures var db := IndexedRun(Indexed(NewLedger, map[]), REQUESTS, SCHEMA).0;
            CompareIndexed(db, CALL, ["id"]).1 == Ok(FIRST) && CompareScan(db.ledger, CALL, ["id"]).1 == Err(DuplicateIdentity)
  {
    AfterRequests();
    var db := IndexedRun(Indexed(NewLedger, map[]), REQUESTS, SCHEMA).0;
    TwoAreSequenced(db.ledger);
    assert Has(db.ledger, "r", FIRST);
    JoinFinds(db.ledger, "r", FIRST);
    NoteIdentity();
    TwoMatch();
  }
}
