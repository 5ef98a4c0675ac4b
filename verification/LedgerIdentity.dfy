/** Logical identities in terms of the payload's own fields: which payloads are one
    logical record, and exactly when a compare-and-append stores a new one. */
module LedgerIdentity {
  import opened Prelude
  import opened LedgerState
  import opened LedgerUnique

  /** A document that has all these fields. */
  predicate Holds(payload: Payload, names: seq<string>) {
    payload.Document? && forall f :: f in names ==> f in payload.fields
  }

  /** Two documents with the same value in every one of these fields. */
  predicate AgreeOn(p: Payload, q: Payload, names: seq<string>)
    requires Holds(p, names) && Holds(q, names)
  {
    forall f :: f in names ==> p.fields[f] == q.fields[f]
  }

  lemma {:induction false} ElementsSize(names: seq<string>)
    ensures |Elements(names)| <= |names|
    ensures |Elements(names)| == |names| <==> Distinct(names)
  {
    if names != [] {
      ElementsSize(Init(names));
      InitLast(names);
      assert Elements(names) == Elements(Init(names)) + {Last(names)};
      if Last(names) in Init(names) {
        assert Elements(names) == Elements(Init(names));
        var k :| 0 <= k < |Init(names)| && Init(names)[k] == Last(names);
        assert names[k] == names[|names| - 1];
      } else {
        assert |Elements(names)| == |Elements(Init(names))| + 1;
        assert Distinct(names) <==> Distinct(Init(names)) by {
          if Distinct(Init(names)) {
            forall i, j | 0 <= i < j < |names| ensures names[i] != names[j] {
              assert names[i] == Init(names)[i] && names[i] in Init(names);
              assert j < |names| - 1 ==> names[j] == Init(names)[j];
            }
          }
          if Distinct(names) {
            forall i, j | 0 <= i < j < |Init(names)| ensures Init(names)[i] != Init(names)[j] {
              assert names[i] == Init(names)[i] && names[j] == Init(names)[j];
            }
          }
        }
      }
    }
  }

  /** A document has an identity exactly when there are identity fields, none of them
      twice, and it has them all; otherwise the error says which of these failed. */
  lemma IdentityExistsExactly(payload: Payload, names: seq<string>)
    requires payload.Document?
    ensures CanonicalIdentity(payload, names).Ok? <==> names != [] && Distinct(names) && Holds(payload, names)
    ensures names == [] ==> CanonicalIdentity(payload, names) == Err(EmptyIdentity)
    ensures names != [] && !Distinct(names) ==> CanonicalIdentity(payload, names) == Err(DuplicateField)
    ensures names != [] && Distinct(names) && !Holds(payload, names) ==>
              CanonicalIdentity(payload, names) == Err(MissingField)
  {
    ElementsSize(names);
    assert Holds(payload, names) <==> Elements(names) <= payload.fields.Keys by {
      if Elements(names) <= payload.fields.Keys {
        forall f | f in names ensures f in payload.fields {
          assert f in Elements(names);
        }
      }
    }
  }

  /** Two documents are one logical record exactly when they agree on every identity field. */
  lemma SameIdentityExactly(p: Payload, q: Payload, names: seq<string>)
    requires names != [] && Distinct(names) && Holds(p, names) && Holds(q, names)
    ensures CanonicalIdentity(p, names) == CanonicalIdentity(q, names) <==> AgreeOn(p, q, names)
  {
    IdentityExistsExactly(p, names);
    IdentityExistsExactly(q, names);
    var a, b := CanonicalIdentity(p, names).value, CanonicalIdentity(q, names).value;
    if a == b {
      forall f | f in names ensures p.fields[f] == q.fields[f] {
        assert f in Elements(names);
        assert a[f] == p.fields[f] && b[f] == q.fields[f];
      }
    }
    assert AgreeOn(p, q, names) ==> forall f :: f in Elements(names) ==> a[f] == b[f];
  }

  /** No two records of the type in these records agree on every identity field, and all
      of them have those fields. */
  ghost predicate OnePerIdentity(records: seq<LedgerRecord>, recordType: string, names: seq<string>) {
    && (forall r :: r in records && r.recordType == recordType ==> Holds(r.payload, names))
    && (forall i, j :: 0 <= i < j < |records| && records[i].recordType == recordType && records[j].recordType == recordType
                       && Holds(records[i].payload, names) && Holds(records[j].payload, names) ==>
                         !AgreeOn(records[i].payload, records[j].payload, names))
  }

  lemma OnePerIdentityIsClean(records: seq<LedgerRecord>, recordType: string, names: seq<string>)
    requires names != [] && Distinct(names) && OnePerIdentity(records, recordType, names)
    ensures Clean(records, recordType, names)
  {
    forall r | r in records && r.recordType == recordType ensures CanonicalIdentity(r.payload, names).Ok? {
      IdentityExistsExactly(r.payload, names);
    }
    forall i, j | 0 <= i < j < |records| && records[i].recordType == recordType == records[j].recordType
      ensures CanonicalIdentity(records[i].payload, names) != CanonicalIdentity(records[j].payload, names)
    {
      assert records[i] in records && records[j] in records;
      SameIdentityExactly(records[i].payload, records[j].payload, names);
    }
  }

  /** A record of the type that is the same logical record as the payload. */
  ghost predicate Twin(r: LedgerRecord, recordType: string, payload: Payload, names: seq<string>)
    requires Holds(payload, names)
  {
    r.recordType == recordType && Holds(r.payload, names) && AgreeOn(r.payload, payload, names)
  }

  lemma TwinMatches(r: LedgerRecord, recordType: string, payload: Payload, names: seq<string>)
    requires names != [] && Distinct(names) && Holds(payload, names)
    requires r.recordType == recordType ==> Holds(r.payload, names)
    ensures CanonicalIdentity(payload, names).Ok?
    ensures Matches(r, recordType, names, CanonicalIdentity(payload, names).value) <==> Twin(r, recordType, payload, names)
  {
    IdentityExistsExactly(payload, names);
    if r.recordType == recordType {
      IdentityExistsExactly(r.payload, names);
      SameIdentityExactly(r.payload, payload, names);
    }
  }

  /** In a Run with one record per identity, a durable compare-and-append stores a new
      record, under the next number, exactly when no stored record of the type agrees
      with it on every identity field; otherwise it answers with that record if the
      payloads are equal and refuses if not. */
  lemma AppendsExactly(ledger: Ledger, run: RunId, durability: Durability, recordType: string, names: seq<string>,
                       payload: Payload, now: int)
    requires names != [] && Distinct(names) && Holds(payload, names)
    requires durability != Ephemeral && ledger.next < U64_MAX
    requires OnePerIdentity(RecordsFor(ledger, run), recordType, names)
    ensures var (after, answer) := CompareAndAppend(ledger, run, durability, recordType, names, payload, now);
            var records, added := RecordsFor(ledger, run), LedgerRecord(ledger.next + 1, run, now, durability, recordType, payload);
            && ((forall r :: r in records ==> !Twin(r, recordType, payload, names)) ==>
                  answer == Ok(added) && RecordsFor(after, run) == records + [added] && after.next == ledger.next + 1)
            && (forall r :: r in records && Twin(r, recordType, payload, names) ==>
                  after == ledger && answer == if r.payload == payload then Ok(r) else Err(DifferentPayload))
  {
    var records := RecordsFor(ledger, run);
    OnePerIdentityIsClean(records, recordType, names);
    IdentityExistsExactly(payload, names);
    var identity := CanonicalIdentity(payload, names).value;
    CleanMatching(records, recordType, names, identity);
    forall r | r in records
      ensures r in Matching(records, recordType, names, identity).value <==> Twin(r, recordType, payload, names)
    {
      MatchingMembers(records, recordType, names, identity, r);
      TwinMatches(r, recordType, payload, names);
    }
    var found := Matching(records, recordType, names, identity).value;
    if found != [] {
      MatchingMembers(records, recordType, names, identity, found[0]);
    }
  }

  /** Beside one record of the type, whatever records of other types there are, a second is
      stored exactly when some identity field differs. */
  lemma SecondIsStoredExactly(ledger: Ledger, run: RunId, r: LedgerRecord, k: nat, durability: Durability,
                              names: seq<string>, payload: Payload, now: int)
    requires names != [] && Distinct(names) && Holds(r.payload, names) && Holds(payload, names)
    requires durability != Ephemeral && ledger.next < U64_MAX
    requires var records := RecordsFor(ledger, run);
             && k < |records| && records[k] == r
             && forall j :: 0 <= j < |records| && j != k ==> records[j].recordType != r.recordType
    ensures CompareAndAppend(ledger, run, durability, r.recordType, names, payload, now).0 != ledger <==>
            exists f :: f in names && r.payload.fields[f] != payload.fields[f]
  {
    var records := RecordsFor(ledger, run);
    forall x | x in records && x.recordType == r.recordType ensures x == r {
      var j :| 0 <= j < |records| && records[j] == x;
    }
    assert r in records;
    AppendsExactly(ledger, run, durability, r.recordType, names, payload, now);
  }

  /** Without all identity fields, without any, or without durability nothing is stored. */
  lemma RefusedWithoutIdentity(ledger: Ledger, run: RunId, durability: Durability, recordType: string, names: seq<string>,
                               payload: Payload, now: int)
    requires payload.Document? && (durability == Ephemeral || names == [] || !Distinct(names) || !Holds(payload, names))
    ensures CompareAndAppend(ledger, run, durability, recordType, names, payload, now) ==
            (ledger, Err(if durability == Ephemeral then EphemeralRecord
                         else if names == [] then EmptyIdentity
                         else if !Distinct(names) then DuplicateField
                         else MissingField))
  {
    IdentityExistsExactly(payload, names);
  }
}
