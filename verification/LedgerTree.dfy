/** Reading a tree of Runs: the range query that selects it and the pages that list
    it. */
module LedgerTree {
  import opened Prelude
  import opened LedgerState
  import opened LedgerSequences

  // ----- the range query ------------------------------------------------------------------

  /** The database's order on ids: byte by byte, which for UTF-8 is the order of the
      code points, a proper prefix first. */
  predicate Less(a: string, b: string) {
    b != "" && (a == "" || a[0] < b[0] || (a[0] == b[0] && Less(a[1..], b[1..])))
  }

  predicate SelectedByRange(root: RunId, id: RunId) {
    id == root || (!Less(id, root + ":") && Less(id, root + ";"))
  }

  lemma {:induction false} RangeIsPrefix(root: string, id: string)
    ensures !Less(id, root + ":") && Less(id, root + ";") <==> Prefixed(root + ":", id)
  {
    if root == "" {
      assert root + ":" == ":" && root + ";" == ";";
      if id != "" {
        assert ":"[1..] == "" && ";"[1..] == "";
        assert Prefixed(":", id) <==> id[0] == ':';
      }
    } else if id != "" {
      assert (root + ":")[1..] == root[1..] + ":" && (root + ";")[1..] == root[1..] + ";";
      RangeIsPrefix(root[1..], id[1..]);
      assert id == [id[0]] + id[1..] && root + ":" == [root[0]] + (root[1..] + ":");
      assert Prefixed(root + ":", id) <==> id[0] == root[0] && Prefixed(root[1..] + ":", id[1..]);
    }
  }

  /** The half-open range from `root:` to `root;` and the root itself are the tree. */
  lemma RangeSelectsTheTree(root: RunId, id: RunId)
    ensures SelectedByRange(root, id) <==> InTree(root, id)
  {
    RangeIsPrefix(root, id);
  }

  // ----- one page ----------------------------------------------------------------------------

  function After(records: seq<LedgerRecord>, after: nat): seq<LedgerRecord> {
    if records == [] then []
    else After(Init(records), after) + if Last(records).number > after then [Last(records)] else []
  }

  /** Records of the tree's Runs, Run by Run in the order given. */
  function Collect(ledger: Ledger, root: RunId, after: nat, order: seq<RunId>): seq<LedgerRecord> {
    if order == [] then []
    else Collect(ledger, root, after, Init(order)) +
         if InTree(root, Last(order)) then After(RecordsFor(ledger, Last(order)), after) else []
  }

  function Insert(sorted: seq<LedgerRecord>, r: LedgerRecord): seq<LedgerRecord> {
    if sorted == [] || Last(sorted).number <= r.number then sorted + [r]
    else Insert(Init(sorted), r) + [Last(sorted)]
  }

  function SortByNumber(records: seq<LedgerRecord>): seq<LedgerRecord> {
    if records == [] then [] else Insert(SortByNumber(Init(records)), Last(records))
  }

  function Listing(ledger: Ledger, root: RunId, after: nat, order: seq<RunId>): seq<LedgerRecord> {
    SortByNumber(Collect(ledger, root, after, order))
  }

  function Take(records: seq<LedgerRecord>, limit: nat): seq<LedgerRecord> {
    if |records| <= limit then records else records[..limit]
  }

  function RecordsAfterTree(ledger: Ledger, root: RunId, after: nat, limit: nat, order: seq<RunId>): seq<LedgerRecord> {
    Take(Listing(ledger, root, after, order), limit)
  }

  // ----- what a listing holds --------------------------------------------------------------------

  lemma {:induction false} AfterMembers(records: seq<LedgerRecord>, after: nat, r: LedgerRecord)
    ensures r in After(records, after) <==> r in records && r.number > after
  {
    if records != [] {
      InitLast(records);
      AfterMembers(Init(records), after, r);
    }
  }

  lemma {:induction false} AfterOrdered(records: seq<LedgerRecord>, after: nat)
    requires Ordered(records)
    ensures Ordered(After(records, after))
  {
    if records != [] {
      AfterOrdered(Init(records), after);
      forall r | r in After(Init(records), after) ensures r.number < Last(records).number {
        AfterMembers(Init(records), after, r);
        var k :| 0 <= k < |Init(records)| && Init(records)[k] == r;
      }
    }
  }

  ghost predicate Listed(ledger: Ledger, root: RunId, after: nat, order: seq<RunId>, r: LedgerRecord) {
    exists run :: run in order && InTree(root, run) && Has(ledger, run, r) && r.number > after
  }

  lemma {:induction false} CollectMembers(ledger: Ledger, root: RunId, after: nat, order: seq<RunId>, r: LedgerRecord)
    ensures r in Collect(ledger, root, after, order) <==> Listed(ledger, root, after, order, r)
  {
    if order != [] {
      InitLast(order);
      CollectMembers(ledger, root, after, Init(order), r);
      AfterMembers(RecordsFor(ledger, Last(order)), after, r);
      assert forall x :: x in order <==> x in Init(order) || x == Last(order);
    }
  }

  ghost predicate DistinctNumbers(records: seq<LedgerRecord>) {
    forall i, j :: 0 <= i < j < |records| ==> records[i].number != records[j].number
  }

  lemma {:induction false} CollectDistinct(ledger: Ledger, root: RunId, after: nat, order: seq<RunId>)
    requires Sequenced(ledger) && Distinct(order)
    ensures DistinctNumbers(Collect(ledger, root, after, order))
  {
    if order != [] {
      var run := Last(order);
      CollectDistinct(ledger, root, after, Init(order));
      assert Ordered(RecordsFor(ledger, run));
      AfterOrdered(RecordsFor(ledger, run), after);
      forall r1, r2 | r1 in Collect(ledger, root, after, Init(order)) && r2 in After(RecordsFor(ledger, run), after)
        ensures r1.number != r2.number
      {
        CollectMembers(ledger, root, after, Init(order), r1);
        AfterMembers(RecordsFor(ledger, run), after, r2);
        var other :| other in Init(order) && InTree(root, other) && Has(ledger, other, r1) && r1.number > after;
        assert Has(ledger, run, r2);
        assert r1.run == other && r2.run == run;
      }
    }
  }

  lemma {:induction false} InsertMembers(sorted: seq<LedgerRecord>, r: LedgerRecord, x: LedgerRecord)
    ensures x in Insert(sorted, r) <==> x in sorted || x == r
  {
    if sorted != [] && Last(sorted).number > r.number {
      InitLast(sorted);
      InsertMembers(Init(sorted), r, x);
    }
  }

  lemma {:induction false} InsertOrdered(sorted: seq<LedgerRecord>, r: LedgerRecord)
    requires Ordered(sorted) && forall x :: x in sorted ==> x.number != r.number
    ensures Ordered(Insert(sorted, r))
  {
    if sorted != [] {
      assert Last(sorted) in sorted;
      InitLast(sorted);
      if Last(sorted).number > r.number {
        assert forall x :: x in Init(sorted) ==> x in sorted;
        InsertOrdered(Init(sorted), r);
        forall x | x in Insert(Init(sorted), r) ensures x.number < Last(sorted).number {
          InsertMembers(Init(sorted), r, x);
          if x in Init(sorted) {
            var k :| 0 <= k < |Init(sorted)| && Init(sorted)[k] == x;
          }
        }
      }
    }
  }

  lemma {:induction false} SortMembers(records: seq<LedgerRecord>, x: LedgerRecord)
    ensures x in SortByNumber(records) <==> x in records
  {
    if records != [] {
      InitLast(records);
      SortMembers(Init(records), x);
      InsertMembers(SortByNumber(Init(records)), Last(records), x);
    }
  }

  lemma {:induction false} SortOrdered(records: seq<LedgerRecord>)
    requires DistinctNumbers(records)
    ensures Ordered(SortByNumber(records))
  {
    if records != [] {
      SortOrdered(Init(records));
      forall x | x in SortByNumber(Init(records)) ensures x.number != Last(records).number {
        SortMembers(Init(records), x);
        var k :| 0 <= k < |Init(records)| && Init(records)[k] == x;
      }
      InsertOrdered(SortByNumber(Init(records)), Last(records));
    }
  }

  /** A listing is strictly ordered and holds exactly the tree's records after the mark. */
  lemma ListingIsExact(ledger: Ledger, root: RunId, after: nat, order: seq<RunId>)
    requires Sequenced(ledger) && Distinct(order)
    ensures Ordered(Listing(ledger, root, after, order))
    ensures forall r :: r in Listing(ledger, root, after, order) <==> Listed(ledger, root, after, order, r)
  {
    CollectDistinct(ledger, root, after, order);
    SortOrdered(Collect(ledger, root, after, order));
    forall r ensures r in Listing(ledger, root, after, order) <==> Listed(ledger, root, after, order, r) {
      SortMembers(Collect(ledger, root, after, order), r);
      CollectMembers(ledger, root, after, order, r);
    }
  }

  /** A page holds as many records as its limit and the tree allow, in order, and all
      others of the listing come after them. */
  lemma PageIsExact(ledger: Ledger, root: RunId, after: nat, limit: nat, order: seq<RunId>)
    requires Sequenced(ledger) && Distinct(order)
    ensures var page := RecordsAfterTree(ledger, root, after, limit, order);
            && |page| <= limit && Ordered(page)
            && (forall r :: r in page ==> Listed(ledger, root, after, order, r))
            && (forall r :: Listed(ledger, root, after, order, r) && r !in page ==>
                              |page| == limit && forall p :: p in page ==> p.number < r.number)
  {
    ListingIsExact(ledger, root, after, order);
    var all, page := Listing(ledger, root, after, order), RecordsAfterTree(ledger, root, after, limit, order);
    assert forall j :: 0 <= j < |page| ==> page[j] == all[j] && page[j] in page;
    forall r | Listed(ledger, root, after, order, r) && r !in page
      ensures |page| == limit && forall p :: p in page ==> p.number < r.number
    {
      var k :| 0 <= k < |all| && all[k] == r;
      forall p | p in page ensures p.number < r.number {
        var j :| 0 <= j < |page| && page[j] == p;
        assert all[j] == p;
      }
    }
  }

  /** Strictly ordered sequences with the same records are the same. */
  lemma {:induction false} OrderedUnique(a: seq<LedgerRecord>, b: seq<LedgerRecord>)
    requires Ordered(a) && Ordered(b) && forall r :: r in a <==> r in b
    ensures a == b
    decreases |a|
  {
    assert b != [] ==> b[0] in b;
    if a != [] {
      InitLast(a);
      assert Last(a) in a;
      assert b != [];
      InitLast(b);
      assert Last(b) in b;
      SameLast(a, b);
      SameLast(b, a);
      assert Last(a) == Last(b);
      forall r ensures r in Init(a) <==> r in Init(b) {
        InitMembers(a, r);
        InitMembers(b, r);
      }
      OrderedUnique(Init(a), Init(b));
    }
  }

  lemma SameLast(a: seq<LedgerRecord>, b: seq<LedgerRecord>)
    requires Ordered(a) && a != [] && b != [] && forall r :: r in b ==> r in a
    ensures Last(b).number <= Last(a).number
    ensures Last(b).number == Last(a).number ==> Last(a) == Last(b)
  {
    assert Last(b) in b;
    var k :| 0 <= k < |a| && a[k] == Last(b);
  }

  lemma InitMembers(s: seq<LedgerRecord>, r: LedgerRecord)
    requires Ordered(s) && s != []
    ensures r in Init(s) <==> r in s && r != Last(s)
  {
    InitLast(s);
    if r in Init(s) {
      var k :| 0 <= k < |Init(s)| && Init(s)[k] == r;
      assert s[k] == r;
    }
  }

  // ----- paging ---------------------------------------------------------------------------------

  lemma SuffixMembers(all: seq<LedgerRecord>, n: nat, r: LedgerRecord)
    requires Ordered(all) && 0 < n <= |all|
    ensures r in all[n..] <==> r in all && r.number > all[n - 1].number
  {
    if r in all[n..] {
      var k :| 0 <= k < |all[n..]| && all[n..][k] == r;
      assert all[n + k] == r;
    }
    if r in all {
      var k :| 0 <= k < |all| && all[k] == r;
      assert k >= n ==> all[n..][k - n] == r;
    }
  }

  lemma ListedLater(ledger: Ledger, root: RunId, after: nat, mark: nat, order: seq<RunId>, r: LedgerRecord)
    requires after <= mark
    ensures Listed(ledger, root, mark, order, r) <==> Listed(ledger, root, after, order, r) && r.number > mark
  {
  }

  lemma ListedAfter(ledger: Ledger, root: RunId, after: nat, order: seq<RunId>, r: LedgerRecord)
    requires Listed(ledger, root, after, order, r)
    ensures r.number > after
  {
  }

  lemma SuffixIs(all: seq<LedgerRecord>, next: seq<LedgerRecord>, n: nat)
    requires Ordered(all) && Ordered(next) && 0 < n <= |all|
    requires forall r :: r in next <==> r in all && r.number > all[n - 1].number
    ensures next == all[n..]
  {
    forall r ensures r in next <==> r in all[n..] {
      SuffixMembers(all, n, r);
    }
    OrderedUnique(next, all[n..]);
  }

  lemma LaterListing(ledger: Ledger, root: RunId, after: nat, mark: nat, order: seq<RunId>)
    requires Sequenced(ledger) && Distinct(order) && after <= mark
    ensures var all, next := Listing(ledger, root, after, order), Listing(ledger, root, mark, order);
            && Ordered(all) && Ordered(next)
            && forall r :: r in next <==> r in all && r.number > mark
  {
    ListingIsExact(ledger, root, after, order);
    ListingIsExact(ledger, root, mark, order);
    var all, next := Listing(ledger, root, after, order), Listing(ledger, root, mark, order);
    forall r ensures r in next <==> r in all && r.number > mark {
      ListedLater(ledger, root, after, mark, order, r);
    }
  }

  lemma ListingStartsAfter(ledger: Ledger, root: RunId, after: nat, order: seq<RunId>, r: LedgerRecord)
    requires Sequenced(ledger) && Distinct(order) && r in Listing(ledger, root, after, order)
    ensures r.number > after
  {
    ListingIsExact(ledger, root, after, order);
    ListedAfter(ledger, root, after, order, r);
  }

  lemma NextPageStarts(ledger: Ledger, root: RunId, after: nat, limit: nat, order: seq<RunId>)
    requires Sequenced(ledger) && Distinct(order) && limit > 0
    requires RecordsAfterTree(ledger, root, after, limit, order) != []
    ensures var page := RecordsAfterTree(ledger, root, after, limit, order);
            Listing(ledger, root, Last(page).number, order) == Listing(ledger, root, after, order)[|page|..]
  {
    var all := Listing(ledger, root, after, order);
    var page := RecordsAfterTree(ledger, root, after, limit, order);
    assert page == all[..|page|] && Last(page) == all[|page| - 1];
    var mark := Last(page).number;
    assert Last(page) in all;
    ListingStartsAfter(ledger, root, after, order, Last(page));
    LaterListing(ledger, root, after, mark, order);
    SuffixIs(all, Listing(ledger, root, mark, order), |page|);
  }

  /** Reads pages, each from the last number of the one before, until one is empty. */
  ghost function AllPages(ledger: Ledger, root: RunId, after: nat, limit: nat, order: seq<RunId>): seq<LedgerRecord>
    requires Sequenced(ledger) && Distinct(order) && limit > 0
    decreases |Listing(ledger, root, after, order)|
  {
    var page := RecordsAfterTree(ledger, root, after, limit, order);
    if page == [] then []
    else
      NextPageStarts(ledger, root, after, limit, order);
      page + AllPages(ledger, root, Last(page).number, limit, order)
  }

  /** Paging an unchanging tree lists each of its records once, in order. */
  lemma {:induction false} PagesListTheTree(ledger: Ledger, root: RunId, after: nat, limit: nat, order: seq<RunId>)
    requires Sequenced(ledger) && Distinct(order) && limit > 0
    ensures AllPages(ledger, root, after, limit, order) == Listing(ledger, root, after, order)
    ensures Ordered(AllPages(ledger, root, after, limit, order))
    decreases |Listing(ledger, root, after, order)|
  {
    ListingIsExact(ledger, root, after, order);
    var page, all := RecordsAfterTree(ledger, root, after, limit, order), Listing(ledger, root, after, order);
    if page != [] {
      NextPageStarts(ledger, root, after, limit, order);
      PagesListTheTree(ledger, root, Last(page).number, limit, order);
      assert page == all[..|page|];
      assert all == all[..|page|] + all[|page|..];
    }
  }
}
