/** Once-only usage accounting: model usage and tool rounds are charged the first
    time their id is seen. */
module UsageAccounting {
  import opened Prelude

  datatype CacheAccounting = IncludedInInput | SeparateFromInput

  datatype TokenUsage = TokenUsage(input: nat, output: nat, cacheCreation: nat, cacheRead: nat)

  datatype ToolStatus = Executed | CacheHit | Noop | Denied | Failed | Aborted | Timeout | OutcomeUnknown

  datatype ToolCall = ToolCall(fingerprint: string, status: ToolStatus)

  /** What one call reports. `accounting` is the provider setting in force then. */
  datatype Report =
    | ModelUsage(effectId: string, accounting: CacheAccounting, usage: TokenUsage, countTurn: bool)
    | ToolRound(roundId: string, calls: seq<ToolCall>)

  datatype Usage = Usage(turns: nat, tokens: nat, uncachedInput: nat, input: nat, output: nat,
                         cacheCreation: nat, cacheRead: nat, toolCalls: nat, usefulCalls: nat,
                         duplicateCalls: nat, seen: set<string>)

  datatype Account = Account(usage: Usage, applied: set<string>)

  const NewAccount := Account(Usage(0, 0, 0, 0, 0, 0, 0, 0, 0, 0, {}), {})

  datatype Counter = Turns | Tokens | UncachedInput | Input | Output | CacheCreation | CacheRead | ToolCalls | UsefulCalls

  function Count(usage: Usage, counter: Counter): nat {
    match counter
    case Turns => usage.turns
    case Tokens => usage.tokens
    case UncachedInput => usage.uncachedInput
    case Input => usage.input
    case Output => usage.output
    case CacheCreation => usage.cacheCreation
    case CacheRead => usage.cacheRead
    case ToolCalls => usage.toolCalls
    case UsefulCalls => usage.usefulCalls
  }

  function Key(report: Report): string {
    match report
    case ModelUsage(effectId, _, _, _) => effectId
    case ToolRound(roundId, _) => "tool-round:" + roundId
  }

  function Uncached(accounting: CacheAccounting, usage: TokenUsage): nat {
    match accounting
    case IncludedInInput => SaturatingSub(usage.input, SaturatingAdd(usage.cacheRead, usage.cacheCreation))
    case SeparateFromInput => usage.input
  }

  function TotalTokens(accounting: CacheAccounting, usage: TokenUsage): nat {
    SaturatingAdd(SaturatingAdd(SaturatingAdd(Uncached(accounting, usage), usage.cacheRead), usage.cacheCreation),
                  usage.output)
  }

  function UsefulIn(calls: seq<ToolCall>): nat {
    if calls == [] then 0
    else UsefulIn(Init(calls)) + if Last(calls).status == Executed || Last(calls).status == CacheHit then 1 else 0
  }

  function Fingerprints(calls: seq<ToolCall>): set<string> {
    set c | c in calls :: c.fingerprint
  }

  /** Calls whose fingerprint was seen before, in `seen` or earlier in the round. */
  function DuplicatesIn(calls: seq<ToolCall>, seen: set<string>): nat {
    if calls == [] then 0
    else DuplicatesIn(Init(calls), seen) +
         if Last(calls).fingerprint in seen + Fingerprints(Init(calls)) then 1 else 0
  }

  function Record(account: Account, report: Report): Account {
    if Key(report) in account.applied then account
    else
      var u := account.usage;
      var usage := match report
        case ModelUsage(_, accounting, usage, countTurn) =>
          u.(tokens := SaturatingAdd(u.tokens, TotalTokens(accounting, usage)),
             uncachedInput := SaturatingAdd(u.uncachedInput, Uncached(accounting, usage)),
             input := SaturatingAdd(u.input, usage.input),
             output := SaturatingAdd(u.output, usage.output),
             cacheCreation := SaturatingAdd(u.cacheCreation, usage.cacheCreation),
             cacheRead := SaturatingAdd(u.cacheRead, usage.cacheRead),
             turns := if countTurn then SaturatingAdd(u.turns, 1) else u.turns)
        case ToolRound(_, calls) =>
          u.(seen := u.seen + Fingerprints(calls),
             toolCalls := SaturatingAdd(u.toolCalls, |calls|),
             usefulCalls := SaturatingAdd(u.usefulCalls, UsefulIn(calls)),
             duplicateCalls := SaturatingAdd(u.duplicateCalls, DuplicatesIn(calls, u.seen)));
      Account(usage, account.applied + {Key(report)})
  }

  function RecordAll(reports: seq<Report>): Account {
    if reports == [] then NewAccount else Record(RecordAll(Init(reports)), Last(reports))
  }

  // ----- what one report costs -----------------------------------------------------------

  /** Cached input is inside the input or beside it, depending on the provider: every
      token of a report is counted once, up to the 64-bit limit. */
  lemma TokensOfReport(accounting: CacheAccounting, usage: TokenUsage)
    requires usage.input <= U64_MAX
    ensures var cached, input := usage.cacheRead + usage.cacheCreation, usage.input;
            var sum := match accounting
              case SeparateFromInput => input + cached + usage.output
              case IncludedInInput => (if cached <= input then input else cached) + usage.output;
            && TotalTokens(accounting, usage) == (if sum <= U64_MAX then sum else U64_MAX)
            && (accounting.SeparateFromInput? ==> Uncached(accounting, usage) == input)
            && (accounting.IncludedInInput? && cached <= input ==> Uncached(accounting, usage) + cached == input)
            && (accounting.IncludedInInput? && cached > input ==> Uncached(accounting, usage) == 0)
  {
  }

  // ----- what the totals mean ------------------------------------------------------------

  function Amount(counter: Counter, report: Report): nat {
    match report
    case ModelUsage(_, accounting, usage, countTurn) =>
      (match counter
       case Turns => if countTurn then 1 else 0
       case Tokens => TotalTokens(accounting, usage)
       case UncachedInput => Uncached(accounting, usage)
       case Input => usage.input
       case Output => usage.output
       case CacheCreation => usage.cacheCreation
       case CacheRead => usage.cacheRead
       case _ => 0)
    case ToolRound(_, calls) =>
      (match counter
       case ToolCalls => |calls|
       case UsefulCalls => UsefulIn(calls)
       case _ => 0)
  }

  function Sum(counter: Counter, reports: seq<Report>): nat {
    if reports == [] then 0 else Sum(counter, Init(reports)) + Amount(counter, Last(reports))
  }

  function Keys(reports: seq<Report>): set<string> {
    set r | r in reports :: Key(r)
  }

  /** The reports whose id no earlier report has. */
  function FirstReports(reports: seq<Report>): seq<Report> {
    if reports == [] then []
    else FirstReports(Init(reports)) + if Key(Last(reports)) in Keys(Init(reports)) then [] else [Last(reports)]
  }

  function SeenIn(report: Report): set<string> {
    if report.ToolRound? then Fingerprints(report.calls) else {}
  }

  function AllSeen(reports: seq<Report>): set<string> {
    set r, f | r in reports && f in SeenIn(r) :: f
  }

  function Capped(n: nat): nat {
    if n <= U64_MAX then n else U64_MAX
  }

  lemma {:induction false} AppliedKeys(reports: seq<Report>)
    ensures RecordAll(reports).applied == Keys(reports)
  {
    if reports != [] {
      AppliedKeys(Init(reports));
      InitLast(reports);
    }
  }

  lemma FingerprintsStep(calls: seq<ToolCall>, seen: set<string>)
    requires calls != []
    ensures seen + Fingerprints(calls) == (seen + Fingerprints(Init(calls))) + {Last(calls).fingerprint}
  {
    InitLast(calls);
    assert forall c :: c in calls <==> c in Init(calls) || c == Last(calls);
  }

  lemma SizeWith(s: set<string>, x: string)
    ensures |s + {x}| == |s| + if x in s then 0 else 1
  {
    if x in s {
      assert s + {x} == s;
    }
  }

  lemma {:induction false} DuplicatesBalance(calls: seq<ToolCall>, seen: set<string>)
    ensures DuplicatesIn(calls, seen) + |seen + Fingerprints(calls)| == |seen| + |calls|
  {
    if calls == [] {
      assert seen + Fingerprints(calls) == seen;
    } else {
      DuplicatesBalance(Init(calls), seen);
      FingerprintsStep(calls, seen);
      SizeWith(seen + Fingerprints(Init(calls)), Last(calls).fingerprint);
    }
  }

  lemma {:induction false} SeenGrows(reports: seq<Report>)
    ensures AllSeen(FirstReports(reports)) == RecordAll(reports).usage.seen
  {
    if reports != [] {
      SeenGrows(Init(reports));
      AppliedKeys(Init(reports));
      var kept := FirstReports(Init(reports));
      if Key(Last(reports)) !in Keys(Init(reports)) {
        assert forall r :: r in kept + [Last(reports)] <==> r in kept || r == Last(reports);
        assert AllSeen(kept + [Last(reports)]) == AllSeen(kept) + SeenIn(Last(reports));
      } else {
        assert FirstReports(reports) == kept;
      }
    }
  }

  lemma CountStep(account: Account, report: Report, counter: Counter)
    requires Key(report) !in account.applied && Count(account.usage, counter) <= U64_MAX
    ensures Count(Record(account, report).usage, counter) ==
            SaturatingAdd(Count(account.usage, counter), Amount(counter, report))
  {
  }

  lemma SumStep(counter: Counter, reports: seq<Report>, report: Report)
    ensures Sum(counter, reports + [report]) == Sum(counter, reports) + Amount(counter, report)
  {
    InitOfAppend(reports, report);
  }

  lemma FirstStep(reports: seq<Report>)
    requires reports != []
    ensures FirstReports(reports) == FirstReports(Init(reports)) +
            if Key(Last(reports)) in RecordAll(Init(reports)).applied then [] else [Last(reports)]
  {
    AppliedKeys(Init(reports));
  }

  /** Each total is the sum over the first occurrences alone, capped at the 64-bit
      limit. */
  lemma {:induction false} TotalsAreFirstOccurrences(reports: seq<Report>, counter: Counter)
    ensures Count(RecordAll(reports).usage, counter) == Capped(Sum(counter, FirstReports(reports)))
  {
    if reports != [] {
      TotalsAreFirstOccurrences(Init(reports), counter);
      FirstStep(reports);
      if Key(Last(reports)) !in RecordAll(Init(reports)).applied {
        CountStep(RecordAll(Init(reports)), Last(reports), counter);
        SumStep(counter, FirstReports(Init(reports)), Last(reports));
      } else {
        assert FirstReports(reports) == FirstReports(Init(reports));
      }
    }
  }

  function NewDuplicates(account: Account, report: Report): nat {
    if report.ToolRound? then DuplicatesIn(report.calls, account.usage.seen) else 0
  }

  lemma DuplicatesStep(account: Account, report: Report)
    requires Key(report) !in account.applied && account.usage.duplicateCalls <= U64_MAX
    ensures var u, v, d := account.usage, Record(account, report).usage, NewDuplicates(account, report);
            && v.duplicateCalls == SaturatingAdd(u.duplicateCalls, d)
            && d + |v.seen| == |u.seen| + Amount(ToolCalls, report)
  {
    if report.ToolRound? {
      DuplicatesBalance(report.calls, account.usage.seen);
    }
  }

  function Rest(calls: nat, seen: set<string>): nat {
    Capped(SaturatingSub(calls, |seen|))
  }

  /** The duplicate count is the number of calls less the number of distinct
      fingerprints, whatever the rounds they came in. */
  lemma {:induction false} DuplicatesAreTheRest(reports: seq<Report>)
    ensures var calls, usage := Sum(ToolCalls, FirstReports(reports)), RecordAll(reports).usage;
            |usage.seen| <= calls && usage.duplicateCalls == Rest(calls, usage.seen)
  {
    if reports != [] {
      DuplicatesAreTheRest(Init(reports));
      FirstStep(reports);
      var last, before := Last(reports), RecordAll(Init(reports));
      if Key(last) !in before.applied {
        SumStep(ToolCalls, FirstReports(Init(reports)), last);
        DuplicatesStep(before, last);
      } else {
        assert FirstReports(reports) == FirstReports(Init(reports));
      }
    }
  }

  /** Below the limit, every terminal call is a duplicate or the first of its kind. */
  lemma CallsSplit(reports: seq<Report>)
    requires Sum(ToolCalls, FirstReports(reports)) <= U64_MAX
    ensures var usage := RecordAll(reports).usage; usage.toolCalls == usage.duplicateCalls + |usage.seen|
  {
    TotalsAreFirstOccurrences(reports, ToolCalls);
    DuplicatesAreTheRest(reports);
  }

  // ----- the order of distinct reports does not matter -------------------------------------

  ghost predicate DistinctKeys(reports: seq<Report>) {
    forall i, j :: 0 <= i < j < |reports| ==> Key(reports[i]) != Key(reports[j])
  }

  lemma {:induction false} AllAreFirst(reports: seq<Report>)
    requires DistinctKeys(reports)
    ensures FirstReports(reports) == reports
  {
    if reports != [] {
      AllAreFirst(Init(reports));
      InitLast(reports);
    }
  }

  lemma {:induction false} SumRemove(counter: Counter, reports: seq<Report>, k: nat)
    requires k < |reports|
    ensures Sum(counter, reports) == Sum(counter, reports[..k] + reports[k + 1..]) + Amount(counter, reports[k])
  {
    var rest := reports[..k] + reports[k + 1..];
    if k == |reports| - 1 {
      assert rest == Init(reports);
    } else {
      assert Init(rest) == Init(reports)[..k] + Init(reports)[k + 1..];
      assert Last(rest) == Last(reports);
      SumRemove(counter, Init(reports), k);
    }
  }

  lemma RemoveAt<T>(s: seq<T>, k: nat)
    requires k < |s|
    ensures multiset(s[..k] + s[k + 1..]) == multiset(s) - multiset{s[k]}
  {
    assert s == s[..k] + [s[k]] + s[k + 1..];
  }

  lemma RemoveLast<T>(s: seq<T>)
    requires s != []
    ensures multiset(Init(s)) == multiset(s) - multiset{Last(s)}
  {
    RemoveAt(s, |s| - 1);
    assert Init(s) == s[..|s| - 1] + s[|s| - 1 + 1..];
  }

  lemma PositionIn<T>(a: seq<T>, b: seq<T>) returns (k: nat)
    requires a != [] && multiset(a) == multiset(b)
    ensures k < |b| && b[k] == Last(a)
  {
    assert Last(a) in multiset(a);
    assert Last(a) in b;
    k :| 0 <= k < |b| && b[k] == Last(a);
  }

  lemma {:induction false} SumOfPermutation(counter: Counter, a: seq<Report>, b: seq<Report>)
    requires multiset(a) == multiset(b)
    ensures Sum(counter, a) == Sum(counter, b)
    decreases |a|
  {
    if a == [] {
      assert |multiset(b)| == 0;
    } else {
      var k := PositionIn(a, b);
      RemoveAt(b, k);
      RemoveLast(a);
      SumOfPermutation(counter, Init(a), b[..k] + b[k + 1..]);
      SumRemove(counter, b, k);
    }
  }

  /** Distinct reports in any order leave the same totals, the same duplicate count
      and the same fingerprints. */
  lemma OrderDoesNotMatter(a: seq<Report>, b: seq<Report>)
    requires DistinctKeys(a) && DistinctKeys(b) && multiset(a) == multiset(b)
    ensures RecordAll(a) == RecordAll(b)
  {
    SameSets(a, b);
    SameDuplicates(a, b);
    forall counter ensures Count(RecordAll(a).usage, counter) == Count(RecordAll(b).usage, counter) {
      SameTotal(a, b, counter);
    }
    SameCounts(RecordAll(a).usage, RecordAll(b).usage);
  }

  lemma SameTotal(a: seq<Report>, b: seq<Report>, counter: Counter)
    requires DistinctKeys(a) && DistinctKeys(b) && multiset(a) == multiset(b)
    ensures Count(RecordAll(a).usage, counter) == Count(RecordAll(b).usage, counter)
  {
    AllAreFirst(a);
    AllAreFirst(b);
    TotalsAreFirstOccurrences(a, counter);
    TotalsAreFirstOccurrences(b, counter);
    SumOfPermutation(counter, a, b);
  }

  lemma SameSets(a: seq<Report>, b: seq<Report>)
    requires DistinctKeys(a) && DistinctKeys(b) && multiset(a) == multiset(b)
    ensures RecordAll(a).usage.seen == RecordAll(b).usage.seen && RecordAll(a).applied == RecordAll(b).applied
  {
    AllAreFirst(a);
    AllAreFirst(b);
    SameElements(a, b);
    SeenGrows(a);
    SeenGrows(b);
    AppliedKeys(a);
    AppliedKeys(b);
  }

  lemma SameDuplicates(a: seq<Report>, b: seq<Report>)
    requires DistinctKeys(a) && DistinctKeys(b) && multiset(a) == multiset(b)
    ensures RecordAll(a).usage.duplicateCalls == RecordAll(b).usage.duplicateCalls
  {
    SameSets(a, b);
    DistinctDuplicates(a);
    DistinctDuplicates(b);
    SumOfPermutation(ToolCalls, a, b);
  }

  lemma DistinctDuplicates(reports: seq<Report>)
    requires DistinctKeys(reports)
    ensures RecordAll(reports).usage.duplicateCalls == Rest(Sum(ToolCalls, reports), RecordAll(reports).usage.seen)
  {
    AllAreFirst(reports);
    DuplicatesAreTheRest(reports);
  }

  lemma SameElements(a: seq<Report>, b: seq<Report>)
    requires multiset(a) == multiset(b)
    ensures AllSeen(a) == AllSeen(b) && Keys(a) == Keys(b)
  {
    forall r ensures r in a <==> r in b {
      assert r in a <==> r in multiset(a);
      assert r in b <==> r in multiset(b);
    }
  }

  lemma SameCounts(u: Usage, v: Usage)
    requires forall counter :: Count(u, counter) == Count(v, counter)
    requires u.seen == v.seen && u.duplicateCalls == v.duplicateCalls
    ensures u == v
  {
    assert Count(u, Turns) == Count(v, Turns) && Count(u, Tokens) == Count(v, Tokens);
    assert Count(u, UncachedInput) == Count(v, UncachedInput) && Count(u, Input) == Count(v, Input);
    assert Count(u, Output) == Count(v, Output) && Count(u, CacheCreation) == Count(v, CacheCreation);
    assert Count(u, CacheRead) == Count(v, CacheRead) && Count(u, ToolCalls) == Count(v, ToolCalls);
    assert Count(u, UsefulCalls) == Count(v, UsefulCalls);
  }

  // ----- the object -------------------------------------------------------------------------

  datatype Budget = Budget(maxTurns: Option<nat>, maxTokens: Option<nat>)

  predicate WithinBudget(budget: Budget, usage: Usage) {
    && (budget.maxTurns.Some? ==> usage.turns <= budget.maxTurns.value)
    && (budget.maxTokens.Some? ==> usage.tokens <= budget.maxTokens.value)
  }

  class UsageLedger {
    var usage: Usage
    var applied: set<string>

    constructor ()
      ensures Account(usage, applied) == NewAccount
    {
      usage, applied := NewAccount.usage, {};
    }

    /** Answers whether the Run is still within its budget; a repeat answers true. */
    method RecordModelUsageOnce(budget: Budget, accounting: CacheAccounting, effectId: string, report: TokenUsage,
                                countTurn: bool) returns (within: bool)
      modifies this
      ensures Account(usage, applied) ==
              Record(old(Account(usage, applied)), ModelUsage(effectId, accounting, report, countTurn))
      ensures within <==> effectId in old(applied) || WithinBudget(budget, usage)
    {
      if effectId in applied { return true; }
      applied := applied + {effectId};
      usage := usage.(tokens := SaturatingAdd(usage.tokens, TotalTokens(accounting, report)));
      usage := usage.(uncachedInput := SaturatingAdd(usage.uncachedInput, Uncached(accounting, report)));
      usage := usage.(input := SaturatingAdd(usage.input, report.input));
      usage := usage.(output := SaturatingAdd(usage.output, report.output));
      usage := usage.(cacheCreation := SaturatingAdd(usage.cacheCreation, report.cacheCreation));
      usage := usage.(cacheRead := SaturatingAdd(usage.cacheRead, report.cacheRead));
      if countTurn {
        usage := usage.(turns := SaturatingAdd(usage.turns, 1));
      }
      return WithinBudget(budget, usage);
    }

    method RecordToolCallsOnce(roundId: string, calls: seq<ToolCall>)
      modifies this
      ensures Account(usage, applied) == Record(old(Account(usage, applied)), ToolRound(roundId, calls))
    {
      var id := "tool-round:" + roundId;
      if id in applied { return; }
      applied := applied + {id};
      var useful, duplicates, seen := CountCalls(calls, usage.seen);
      usage := usage.(seen := seen);
      usage := usage.(toolCalls := SaturatingAdd(usage.toolCalls, |calls|));
      usage := usage.(usefulCalls := SaturatingAdd(usage.usefulCalls, useful));
      usage := usage.(duplicateCalls := SaturatingAdd(usage.duplicateCalls, duplicates));
    }
  }

  lemma NextCall(calls: seq<ToolCall>, i: nat, seen: set<string>)
    requires i < |calls|
    ensures Fingerprints(calls[..i + 1]) == Fingerprints(calls[..i]) + {calls[i].fingerprint}
    ensures DuplicatesIn(calls[..i + 1], seen) ==
            DuplicatesIn(calls[..i], seen) + if calls[i].fingerprint in seen + Fingerprints(calls[..i]) then 1 else 0
    ensures UsefulIn(calls[..i + 1]) ==
            UsefulIn(calls[..i]) + if calls[i].status == Executed || calls[i].status == CacheHit then 1 else 0
  {
    assert calls[..i + 1] == calls[..i] + [calls[i]];
    InitOfAppend(calls[..i], calls[i]);
  }

  /** Counts the useful and the repeated calls of a round. */
  method CountCalls(calls: seq<ToolCall>, seen0: set<string>) returns (useful: nat, duplicates: nat, seen: set<string>)
    ensures useful == UsefulIn(calls) && duplicates == DuplicatesIn(calls, seen0)
    ensures seen == seen0 + Fingerprints(calls)
  {
    useful, duplicates, seen := 0, 0, seen0;
    for i := 0 to |calls|
      invariant duplicates == DuplicatesIn(calls[..i], seen0) && useful == UsefulIn(calls[..i])
      invariant seen == seen0 + Fingerprints(calls[..i])
    {
      NextCall(calls, i, seen0);
      if calls[i].status == Executed || calls[i].status == CacheHit {
        useful := useful + 1;
      }
      if calls[i].fingerprint in seen {
        duplicates := duplicates + 1;
      }
      seen := seen + {calls[i].fingerprint};
    }
    assert calls[..|calls|] == calls;
  }
}
