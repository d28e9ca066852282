/**
 `fft listing upsert`: cutting a file of listings into requests the API accepts, sending
 them, and saying what became of every listing.
*/
module ListingUpsert {
  import opened Wrappers
  import opened Greedy
  import opened Bulk

  const MAX_BULK_BUDGET := 25

  /** One listing: its own bytes, the id it is reported under, and one unit of cost per facility. */
  datatype UpsertEntry = UpsertEntry(raw: string, tenantArticleId: string, cost: nat)

  datatype ListingAnswer = ListingAnswer(tenantArticleId: string, facilityId: string, status: string)

  /** Entry number `index` is over the budget on its own. */
  datatype ChunkError = TooCostly(index: nat)

  function Max(x: nat, y: nat): nat {
    if x >= y then x else y
  }

  function MaxCost(chunk: seq<UpsertEntry>): nat {
    if chunk == [] then 0
    else Max(MaxCost(chunk[..|chunk| - 1]), chunk[|chunk| - 1].cost)
  }

  function SumCost(chunk: seq<UpsertEntry>): nat {
    if chunk == [] then 0
    else SumCost(chunk[..|chunk| - 1]) + chunk[|chunk| - 1].cost
  }

  /** Entries times selectors, the literal product of the API's sentence. */
  predicate FitsBudget(chunk: seq<UpsertEntry>) {
    |chunk| * MaxCost(chunk) <= MAX_BULK_BUDGET
  }

  method ChunkUpsert(entries: seq<UpsertEntry>) returns (r: Result<seq<seq<UpsertEntry>>, ChunkError>)
    ensures r.Success? <==> forall i | 0 <= i < |entries| :: entries[i].cost <= MAX_BULK_BUDGET
    ensures r.Success? ==> r.value == Cut(FitsBudget, [], entries)
    ensures r.Failure? ==>
      && r.error.index < |entries|
      && entries[r.error.index].cost > MAX_BULK_BUDGET
      && forall i | 0 <= i < r.error.index :: entries[i].cost <= MAX_BULK_BUDGET
  {
    var chunks: seq<seq<UpsertEntry>> := [];
    var current: seq<UpsertEntry> := [];
    var maxCost := 0;
    for i := 0 to |entries|
      invariant forall k | 0 <= k < i :: entries[k].cost <= MAX_BULK_BUDGET
      invariant maxCost == MaxCost(current)
      invariant chunks + Cut(FitsBudget, current, entries[i..]) == Cut(FitsBudget, [], entries)
    {
      var entry := entries[i];
      if entry.cost > MAX_BULK_BUDGET {
        return Failure(TooCostly(i));
      }
      assert (current + [entry])[..|current|] == current;
      var cost := Max(maxCost, entry.cost);
      if (|current| + 1) * cost > MAX_BULK_BUDGET {
        if |current| > 0 {
          chunks := chunks + [current];
          current, maxCost := [], 0;
        }
        cost := entry.cost;
      }
      current := current + [entry];
      maxCost := cost;
    }
    if |current| > 0 {
      chunks := chunks + [current];
    }
    r := Success(chunks);
  }

  // --- what chunking promises ---

  lemma {:induction false} CostUnderMax(chunk: seq<UpsertEntry>, i: nat)
    requires i < |chunk|
    ensures chunk[i].cost <= MaxCost(chunk)
  {
    if i < |chunk| - 1 {
      CostUnderMax(chunk[..|chunk| - 1], i);
    }
  }

  lemma {:induction false} MaxIsSomeCost(chunk: seq<UpsertEntry>, bound: nat)
    requires forall e | e in chunk :: e.cost <= bound
    ensures MaxCost(chunk) <= bound
  {
    if chunk != [] {
      MaxIsSomeCost(chunk[..|chunk| - 1], bound);
    }
  }

  lemma {:induction false} SumAtMost(chunk: seq<UpsertEntry>, most: nat)
    requires forall i | 0 <= i < |chunk| :: chunk[i].cost <= most
    ensures SumCost(chunk) <= |chunk| * most
    ensures SumCost(chunk) == |chunk| * most <==> forall i | 0 <= i < |chunk| :: chunk[i].cost == most
  {
    if chunk != [] {
      var n := |chunk| - 1;
      SumAtMost(chunk[..n], most);
      assert |chunk| * most == n * most + most;
      assert (forall i | 0 <= i < |chunk| :: chunk[i].cost == most) <==>
        (forall i | 0 <= i < n :: chunk[..n][i].cost == most) && chunk[n].cost == most;
    }
  }

  /** The product is never smaller than the sum, and the same only when every entry costs the same. */
  lemma {:induction false} SumUnderProduct(chunk: seq<UpsertEntry>)
    ensures SumCost(chunk) <= |chunk| * MaxCost(chunk)
    ensures |chunk| * MaxCost(chunk) <= SumCost(chunk)
            <==> forall i | 0 <= i < |chunk| :: chunk[i].cost == MaxCost(chunk)
  {
    forall i | 0 <= i < |chunk| ensures chunk[i].cost <= MaxCost(chunk) {
      CostUnderMax(chunk, i);
    }
    SumAtMost(chunk, MaxCost(chunk));
  }

  /** So entries can be within the budget by their sum and over it by the product. */
  lemma ProductCanBeLarger()
    ensures var c := [UpsertEntry("", "a", 1), UpsertEntry("", "b", 20)];
      SumCost(c) <= MAX_BULK_BUDGET < |c| * MaxCost(c) && !FitsBudget(c)
  {
  }

  lemma ProductGrows(a: nat, b: nat, x: nat, y: nat)
    requires a <= b && x <= y
    ensures a * x <= b * y
  {
  }

  lemma BudgetIsHereditary()
    ensures Hereditary(FitsBudget)
  {
    forall s: seq<UpsertEntry>, i, j | 0 <= i < j <= |s| && FitsBudget(s)
      ensures FitsBudget(s[i..j])
    {
      forall e | e in s[i..j] ensures e.cost <= MaxCost(s) {
        var k :| 0 <= k < |s| && s[k] == e;
        CostUnderMax(s, k);
      }
      MaxIsSomeCost(s[i..j], MaxCost(s));
      ProductGrows(|s[i..j]|, |s|, MaxCost(s[i..j]), MaxCost(s));
    }
  }

  /**
   The chunks hold the file's entries in the file's order, none is empty, each is within
   the budget under either reading of the API's sentence, and no other way of cutting
   the file needs fewer requests.
  */
  lemma {:induction false} ChunksAreFewest(entries: seq<UpsertEntry>)
    requires forall i | 0 <= i < |entries| :: entries[i].cost <= MAX_BULK_BUDGET
    ensures var chunks := Cut(FitsBudget, [], entries);
      && Concat(chunks) == entries
      && (forall c | c in chunks ::
            c != [] && |c| * MaxCost(c) <= MAX_BULK_BUDGET && SumCost(c) <= MAX_BULK_BUDGET)
      && forall other :: Partition(FitsBudget, entries, other) ==> |chunks| <= |other|
  {
    BudgetIsHereditary();
    forall i | 0 <= i < |entries| ensures FitsBudget([entries[i]]) {
      assert [entries[i]][..0] == [];
      assert MaxCost([entries[i]]) == entries[i].cost;
    }
    CutIsOptimal(FitsBudget, entries);
    forall c | c in Cut(FitsBudget, [], entries)
      ensures c != [] && FitsBudget(c) && SumCost(c) <= MAX_BULK_BUDGET
    {
      var i :| 0 <= i < |Cut(FitsBudget, [], entries)| && Cut(FitsBudget, [], entries)[i] == c;
      SumUnderProduct(c);
    }
  }

  // --- sending and reconciling ---

  function EntryKeys(chunk: seq<UpsertEntry>): (keys: seq<string>)
    ensures |keys| == |chunk| && forall i | 0 <= i < |chunk| :: keys[i] == chunk[i].tenantArticleId
  {
    seq(|chunk|, i requires 0 <= i < |chunk| => chunk[i].tenantArticleId)
  }

  function AnswerKeys(items: seq<ListingAnswer>): (keys: seq<string>)
    ensures |keys| == |items| && forall i | 0 <= i < |items| :: keys[i] == items[i].tenantArticleId
  {
    seq(|items|, i requires 0 <= i < |items| => items[i].tenantArticleId)
  }

  function AnswerRows(items: seq<ListingAnswer>): (rows: seq<BulkResult>)
    ensures Keys(rows) == AnswerKeys(items)
  {
    seq(|items|, i requires 0 <= i < |items| =>
      BulkResult(items[i].tenantArticleId, items[i].facilityId, items[i].status, ""))
  }

  const UNREADABLE := "the API accepted the request but its answer could not be read"
  const NO_RESULT := "the API accepted the request but reported no result for this listing"

  /** The answer as it came, then one FAILED row per entry whose key it never mentions. */
  function ListingRows(chunk: seq<UpsertEntry>, o: Sent<ListingAnswer>): seq<BulkResult> {
    match o
    case EncodeFailed => []
    case Failed(_, _, message) => RowsFor(EntryKeys(chunk), FAILED, message)
    case Accepted(Unreadable) => RowsFor(EntryKeys(chunk), UNKNOWN, UNREADABLE)
    case Accepted(Answered(items)) =>
      AnswerRows(items) +
      RowsFor(DroppedBySet(EntryKeys(chunk), multiset(AnswerKeys(items))), FAILED, NO_RESULT)
  }

  method ChunkResults(chunk: seq<UpsertEntry>, status: string, reason: string)
    returns (results: seq<BulkResult>)
    ensures results == RowsFor(EntryKeys(chunk), status, reason)
  {
    results := [];
    for i := 0 to |chunk|
      invariant results == RowsFor(EntryKeys(chunk), status, reason)[..i]
    {
      results := results + [BulkResult(chunk[i].tenantArticleId, "", status, reason)];
    }
  }

  method UpsertChunkResults(chunk: seq<UpsertEntry>, reply: Reply<ListingAnswer>)
    returns (results: seq<BulkResult>)
    ensures results == ListingRows(chunk, Accepted(reply))
  {
    if reply.Unreadable? {
      results := ChunkResults(chunk, UNKNOWN, UNREADABLE);
      return;
    }
    var items := reply.items;
    var reported: set<string> := {};
    results := [];
    for i := 0 to |items|
      invariant results == AnswerRows(items)[..i]
      invariant forall k :: k in reported <==> k in AnswerKeys(items)[..i]
    {
      reported := reported + {items[i].tenantArticleId};
      results := results + [BulkResult(items[i].tenantArticleId, items[i].facilityId, items[i].status, "")];
    }
    ghost var answered := multiset(AnswerKeys(items));
    for i := 0 to |chunk|
      invariant results ==
        AnswerRows(items) + RowsFor(DroppedBySet(EntryKeys(chunk)[..i], answered), FAILED, NO_RESULT)
    {
      assert EntryKeys(chunk)[..i + 1][..i] == EntryKeys(chunk)[..i];
      if chunk[i].tenantArticleId !in reported {
        results := results + [BulkResult(chunk[i].tenantArticleId, "", FAILED, NO_RESULT)];
      }
    }
    assert EntryKeys(chunk)[..|chunk|] == EntryKeys(chunk);
  }

  method SendUpsertChunks(chunks: seq<seq<UpsertEntry>>, outcomes: seq<Sent<ListingAnswer>>)
    returns (run: BulkRun)
    requires |outcomes| == |chunks|
    ensures run == RunOf(ListingRows, chunks, outcomes)
  {
    var results: seq<BulkResult> := [];
    for i := 0 to |chunks|
      invariant forall k | 0 <= k < i :: !Aborts(outcomes[k])
      invariant results == RowsOf(ListingRows, chunks[..i], outcomes[..i])
    {
      if Aborts(outcomes[i]) {
        SurvivesIs(outcomes, i);
      }
      RowsOfGrows(ListingRows, chunks, outcomes, i);
      match outcomes[i]
      case EncodeFailed => return BulkRun([], true);
      case Failed(over, status, message) =>
        if over || !ChunkRejected(status) {
          return BulkRun(results, true);
        }
        var rows := ChunkResults(chunks[i], FAILED, message);
        results := results + rows;
      case Accepted(reply) =>
        var rows := UpsertChunkResults(chunks[i], reply);
        results := results + rows;
    }
    SurvivesIs(outcomes, |chunks|);
    run := BulkRun(results, false);
  }

  lemma {:induction false} SetDropCovers(keys: seq<string>, answered: multiset<string>)
    ensures forall k | k in keys :: k in answered || k in DroppedBySet(keys, answered)
  {
    if keys != [] {
      SetDropCovers(keys[..|keys| - 1], answered);
    }
  }

  lemma ChunkCovered(chunk: seq<UpsertEntry>, o: Sent<ListingAnswer>)
    requires !Aborts(o)
    ensures forall k | k in EntryKeys(chunk) :: k in Keys(ListingRows(chunk, o))
  {
    if o.Accepted? && o.reply.Answered? {
      var answered := multiset(AnswerKeys(o.reply.items));
      SetDropCovers(EntryKeys(chunk), answered);
      var dropped := DroppedBySet(EntryKeys(chunk), answered);
      RowKeysAppend(AnswerRows(o.reply.items), RowsFor(dropped, FAILED, NO_RESULT));
    }
  }

  lemma {:induction false} RowsCoverEntries(chunks: seq<seq<UpsertEntry>>, outcomes: seq<Sent<ListingAnswer>>)
    requires |outcomes| == |chunks|
    requires forall i | 0 <= i < |outcomes| :: !Aborts(outcomes[i])
    ensures forall k | k in EntryKeys(Concat(chunks)) :: k in Keys(RowsOf(ListingRows, chunks, outcomes))
  {
    if chunks != [] {
      var n := |chunks| - 1;
      RowsCoverEntries(chunks[..n], outcomes[..n]);
      ChunkCovered(chunks[n], outcomes[n]);
      ConcatSnoc(chunks);
      RowKeysAppend(RowsOf(ListingRows, chunks[..n], outcomes[..n]), ListingRows(chunks[n], outcomes[n]));
    }
  }

  /**
   A file that chunks and a run that completes: every listing of the file has a row under
   its own id, whatever the server answered.
  */
  lemma CompletedRunAccountsForFile(entries: seq<UpsertEntry>, outcomes: seq<Sent<ListingAnswer>>)
    requires forall i | 0 <= i < |entries| :: entries[i].cost <= MAX_BULK_BUDGET
    requires |outcomes| == |Cut(FitsBudget, [], entries)|
    ensures var run := RunOf(ListingRows, Cut(FitsBudget, [], entries), outcomes);
      !run.aborted ==> forall k | k in EntryKeys(entries) :: k in Keys(run.results)
  {
    var chunks := Cut(FitsBudget, [], entries);
    assert Concat(chunks) == entries by {
      ChunksAreFewest(entries);
    }
    if Survives(outcomes) == |outcomes| {
      assert chunks[..|chunks|] == chunks && outcomes[..|chunks|] == outcomes;
      RowsCoverEntries(chunks, outcomes);
    }
  }

  /**
   A run that stops early reports exactly the requests before the one that stopped it,
   and their listings all have a row; only a request that could not even be encoded
   makes it report nothing.
  */
  lemma {:induction false} AbortedRunReportsItsPrefix(chunks: seq<seq<UpsertEntry>>, outcomes: seq<Sent<ListingAnswer>>, i: nat)
    requires |outcomes| == |chunks| && i < |chunks|
    requires Aborts(outcomes[i]) && forall k | 0 <= k < i :: !Aborts(outcomes[k])
    ensures RunOf(ListingRows, chunks, outcomes).aborted
    ensures RunOf(ListingRows, chunks, outcomes).results ==
      if outcomes[i].EncodeFailed? then [] else RowsOf(ListingRows, chunks[..i], outcomes[..i])
    ensures !outcomes[i].EncodeFailed? ==> forall k | k in EntryKeys(Concat(chunks[..i])) ::
      k in Keys(RunOf(ListingRows, chunks, outcomes).results)
  {
    SurvivesIs(outcomes, i);
    RowsCoverEntries(chunks[..i], outcomes[..i]);
  }

  // --- what a row says, told from the outcome's own fields ---

  /**
   An answered chunk has one row per item, as the item has it, and then a FAILED row for
   exactly the entries whose id no item has, in the file's order.
  */
  lemma AnswersComeFirst(chunk: seq<UpsertEntry>, items: seq<ListingAnswer>)
    ensures var rows := ListingRows(chunk, Accepted(Answered(items)));
      && |rows| >= |items|
      && (forall i | 0 <= i < |items| ::
            && rows[i].key == items[i].tenantArticleId
            && rows[i].facility == items[i].facilityId && rows[i].status == items[i].status)
      && (forall r | r in rows[|items|..] :: r.status == "FAILED")
      && Keys(rows[|items|..]) == Unmentioned(chunk, items)
  {
    var rows := ListingRows(chunk, Accepted(Answered(items)));
    forall i | 0 <= i < |items| ensures rows[i] == AnswerRows(items)[i] {
    }
    var dropped := DroppedBySet(EntryKeys(chunk), multiset(AnswerKeys(items)));
    assert rows[|items|..] == RowsFor(dropped, FAILED, NO_RESULT);
    UnmentionedAreDropped(chunk, items);
  }

  /** The ids of the entries that no item is about. */
  function Unmentioned(chunk: seq<UpsertEntry>, items: seq<ListingAnswer>): seq<string> {
    if chunk == [] then []
    else
      var n := |chunk| - 1;
      Unmentioned(chunk[..n], items)
      + if exists i | 0 <= i < |items| :: items[i].tenantArticleId == chunk[n].tenantArticleId then []
        else [chunk[n].tenantArticleId]
  }

  lemma {:induction false} UnmentionedAreDropped(chunk: seq<UpsertEntry>, items: seq<ListingAnswer>)
    ensures DroppedBySet(EntryKeys(chunk), multiset(AnswerKeys(items))) == Unmentioned(chunk, items)
  {
    if chunk != [] {
      var n := |chunk| - 1;
      UnmentionedAreDropped(chunk[..n], items);
      assert EntryKeys(chunk)[..n] == EntryKeys(chunk[..n]);
      var id := chunk[n].tenantArticleId;
      if i :| 0 <= i < |items| && items[i].tenantArticleId == id {
        assert AnswerKeys(items)[i] == id;
      }
    }
  }

  /** A chunk accepted with an unreadable body has one UNKNOWN row per entry, in order. */
  lemma UnreadableIsUnknown(chunk: seq<UpsertEntry>)
    ensures var rows := ListingRows(chunk, Accepted(Unreadable));
      && |rows| == |chunk|
      && forall i | 0 <= i < |rows| :: rows[i].key == chunk[i].tenantArticleId && rows[i].status == "UNKNOWN"
  {
    var rows := ListingRows(chunk, Accepted(Unreadable));
    forall i | 0 <= i < |rows| ensures rows[i].key == chunk[i].tenantArticleId && rows[i] in rows {
      assert Keys(rows)[i] == EntryKeys(chunk)[i];
    }
  }

  /** A chunk the API refused has a FAILED row per entry, in order, with the refusal as its reason. */
  lemma RejectedIsFailed(chunk: seq<UpsertEntry>, over: bool, status: Option<int>, message: string)
    ensures var rows := ListingRows(chunk, Failed(over, status, message));
      && |rows| == |chunk|
      && forall i | 0 <= i < |rows| ::
           rows[i].key == chunk[i].tenantArticleId && rows[i].status == "FAILED" && rows[i].reason == message
  {
    var rows := ListingRows(chunk, Failed(over, status, message));
    forall i | 0 <= i < |rows| ensures rows[i].key == chunk[i].tenantArticleId && rows[i] in rows {
      assert Keys(rows)[i] == EntryKeys(chunk)[i];
    }
  }

  // --- the budget, told from the costs ---

  /** No entry's cost, times the number of entries, is over 25. */
  ghost predicate WithinBudget(chunk: seq<UpsertEntry>) {
    forall i | 0 <= i < |chunk| :: |chunk| * chunk[i].cost <= 25
  }

  lemma {:induction false} MaxIsReached(chunk: seq<UpsertEntry>) returns (i: nat)
    requires chunk != []
    ensures i < |chunk| && chunk[i].cost == MaxCost(chunk)
  {
    var n := |chunk| - 1;
    if n == 0 || chunk[n].cost >= MaxCost(chunk[..n]) {
      i := n;
    } else {
      i := MaxIsReached(chunk[..n]);
    }
  }

  lemma BudgetIsPerEntry(chunk: seq<UpsertEntry>)
    ensures FitsBudget(chunk) <==> WithinBudget(chunk)
  {
    if chunk != [] {
      var m := MaxIsReached(chunk);
      forall i | 0 <= i < |chunk| ensures |chunk| * chunk[i].cost <= |chunk| * MaxCost(chunk) {
        CostUnderMax(chunk, i);
        ProductGrows(|chunk|, |chunk|, chunk[i].cost, MaxCost(chunk));
      }
    }
  }

  /** No split of the file into non-empty requests, each within the budget, needs fewer of them. */
  lemma {:induction false} NoSplitIsSmaller(entries: seq<UpsertEntry>, other: seq<seq<UpsertEntry>>)
    requires forall i | 0 <= i < |entries| :: entries[i].cost <= 25
    requires Concat(other) == entries
    requires forall i | 0 <= i < |other| :: other[i] != [] && WithinBudget(other[i])
    ensures |Cut(FitsBudget, [], entries)| <= |other|
    ensures forall i | 0 <= i < |Cut(FitsBudget, [], entries)| :: WithinBudget(Cut(FitsBudget, [], entries)[i])
  {
    ChunksAreFewest(entries);
    forall i | 0 <= i < |other| ensures FitsBudget(other[i]) {
      BudgetIsPerEntry(other[i]);
    }
    forall i | 0 <= i < |Cut(FitsBudget, [], entries)| ensures WithinBudget(Cut(FitsBudget, [], entries)[i]) {
      BudgetIsPerEntry(Cut(FitsBudget, [], entries)[i]);
    }
  }
}
