/**
 `fft stock upsert`: requests of at most five hundred stocks, and a reconciliation that
 counts answers instead of collecting them in a set, because two entries may share a key.
*/
module StockUpsert {
  import opened Wrappers
  import opened Greedy
  import opened Bulk

  const MAX_STOCK_UPSERT := 500

  datatype StockEntry = StockEntry(raw: string, key: string)

  datatype StockAnswer = StockAnswer(id: string, tenantArticleId: string, facilityRef: string, status: string)

  const UNREADABLE := "the API accepted the request but its answer could not be read"
  const NO_RESULT := "the API accepted the request but reported no result for this stock"

  predicate FitsRequest(chunk: seq<StockEntry>) {
    |chunk| <= MAX_STOCK_UPSERT
  }

  function EntryKeys(chunk: seq<StockEntry>): (keys: seq<string>)
    ensures |keys| == |chunk| && forall i | 0 <= i < |chunk| :: keys[i] == chunk[i].key
  {
    seq(|chunk|, i requires 0 <= i < |chunk| => chunk[i].key)
  }

  /** An answer is filed under its id only when that id was sent; a created stock has one fft never saw. */
  function AnswerKey(sent: seq<string>, item: StockAnswer): string {
    if item.id == "" || item.id !in sent then item.tenantArticleId else item.id
  }

  function AnswerKeys(sent: seq<string>, items: seq<StockAnswer>): (keys: seq<string>)
    ensures |keys| == |items| && forall i | 0 <= i < |items| :: keys[i] == AnswerKey(sent, items[i])
  {
    seq(|items|, i requires 0 <= i < |items| => AnswerKey(sent, items[i]))
  }

  function AnswerRows(sent: seq<string>, items: seq<StockAnswer>): (rows: seq<BulkResult>)
    ensures Keys(rows) == AnswerKeys(sent, items)
  {
    seq(|items|, i requires 0 <= i < |items| =>
      BulkResult(AnswerKey(sent, items[i]), items[i].facilityRef, items[i].status, ""))
  }

  /** The answer as it came, then a FAILED row for every entry no answer is left for. */
  function StockRows(chunk: seq<StockEntry>, o: Sent<StockAnswer>): seq<BulkResult> {
    match o
    case EncodeFailed => []
    case Failed(_, _, message) => RowsFor(EntryKeys(chunk), FAILED, message)
    case Accepted(Unreadable) => RowsFor(EntryKeys(chunk), UNKNOWN, UNREADABLE)
    case Accepted(Answered(items)) =>
      var keys := EntryKeys(chunk);
      AnswerRows(keys, items) +
      RowsFor(DroppedByCount(keys, multiset(AnswerKeys(keys, items))), FAILED, NO_RESULT)
  }

  method StockResults(chunk: seq<StockEntry>, status: string, reason: string)
    returns (results: seq<BulkResult>)
    ensures results == RowsFor(EntryKeys(chunk), status, reason)
  {
    results := [];
    for i := 0 to |chunk|
      invariant results == RowsFor(EntryKeys(chunk), status, reason)[..i]
    {
      results := results + [BulkResult(chunk[i].key, "", status, reason)];
    }
  }

  function CountOf(m: map<string, int>, k: string): int {
    if k in m then m[k] else 0
  }

  function Shortfall(sent: nat, answered: nat): nat {
    if sent <= answered then 0 else sent - answered
  }

  /** The first half of the reconciliation: the answer's rows, and how many answers each key got. */
  method FileAnswers(chunk: seq<StockEntry>, items: seq<StockAnswer>)
    returns (rows: seq<BulkResult>, reported: map<string, int>)
    ensures rows == AnswerRows(EntryKeys(chunk), items)
    ensures Tallies(reported, multiset(AnswerKeys(EntryKeys(chunk), items)))
  {
    ghost var keys := EntryKeys(chunk);
    ghost var answers := AnswerKeys(keys, items);
    var sent: set<string> := {};
    for i := 0 to |chunk|
      invariant forall k :: k in sent <==> k in keys[..i]
    {
      sent := sent + {chunk[i].key};
    }
    assert keys[..|chunk|] == keys;

    reported := map[];
    rows := [];
    ghost var tally: multiset<string> := multiset{};
    for i := 0 to |items|
      invariant rows == AnswerRows(keys, items)[..i]
      invariant tally == multiset(answers[..i]) && Tallies(reported, tally)
    {
      var key := items[i].id;
      if key == "" || key !in sent {
        key := items[i].tenantArticleId;
      }
      assert answers[..i + 1] == answers[..i] + [key];
      TallyUp(reported, tally, key);
      tally := tally + multiset{key};
      reported := reported[key := CountOf(reported, key) + 1];
      rows := rows + [BulkResult(key, items[i].facilityRef, items[i].status, "")];
    }
    assert answers[..|items|] == answers;
  }

  /**
   The second half: reported counts down, so what is left of a key is the answers no
   entry has used yet, and an entry that finds none left is reported.
  */
  method ReportDropped(chunk: seq<StockEntry>, tally: map<string, int>, ghost answered: multiset<string>)
    returns (rows: seq<BulkResult>)
    requires Tallies(tally, answered)
    ensures rows == RowsFor(DroppedByCount(EntryKeys(chunk), answered), FAILED, NO_RESULT)
  {
    ghost var keys := EntryKeys(chunk);
    ghost var used: multiset<string> := multiset{};
    ghost var dropped: seq<string> := [];
    var reported := tally;
    rows := [];
    for i := 0 to |chunk|
      invariant used == multiset(keys[..i]) && Unused(reported, answered, used)
      invariant dropped == DroppedByCount(keys[..i], answered)
      invariant rows == RowsFor(dropped, FAILED, NO_RESULT)
    {
      var key := chunk[i].key;
      DropStep(keys, answered, i);
      UseAnswer(reported, answered, used, key);
      used := used + multiset{key};
      if CountOf(reported, key) > 0 {
        reported := reported[key := CountOf(reported, key) - 1];
        continue;
      }
      RowsForAppend(dropped, key, FAILED, NO_RESULT);
      dropped := dropped + [key];
      rows := rows + [BulkResult(key, "", FAILED, NO_RESULT)];
    }
    assert keys[..|chunk|] == keys;
  }

  method StockChunkResults(chunk: seq<StockEntry>, reply: Reply<StockAnswer>)
    returns (results: seq<BulkResult>)
    ensures results == StockRows(chunk, Accepted(reply))
  {
    if reply.Unreadable? {
      results := StockResults(chunk, UNKNOWN, UNREADABLE);
      return;
    }
    var answerRows, reported := FileAnswers(chunk, reply.items);
    var dropped := ReportDropped(chunk, reported, multiset(AnswerKeys(EntryKeys(chunk), reply.items)));
    results := answerRows + dropped;
  }

  ghost predicate Tallies(reported: map<string, int>, tally: multiset<string>) {
    forall k :: CountOf(reported, k) == tally[k]
  }

  ghost predicate Unused(reported: map<string, int>, answered: multiset<string>, used: multiset<string>) {
    forall k :: CountOf(reported, k) == Shortfall(answered[k], used[k])
  }

  lemma TallyUp(reported: map<string, int>, tally: multiset<string>, key: string)
    requires Tallies(reported, tally)
    ensures Tallies(reported[key := CountOf(reported, key) + 1], tally + multiset{key})
  {
  }

  lemma UseAnswer(reported: map<string, int>, answered: multiset<string>, used: multiset<string>, key: string)
    requires Unused(reported, answered, used)
    ensures CountOf(reported, key) > 0 <==> (used + multiset{key})[key] <= answered[key]
    ensures CountOf(reported, key) > 0 ==>
      Unused(reported[key := CountOf(reported, key) - 1], answered, used + multiset{key})
    ensures CountOf(reported, key) <= 0 ==> Unused(reported, answered, used + multiset{key})
  {
  }

  lemma DropStep(keys: seq<string>, answered: multiset<string>, i: nat)
    requires i < |keys|
    ensures multiset(keys[..i + 1]) == multiset(keys[..i]) + multiset{keys[i]}
    ensures DroppedByCount(keys[..i + 1], answered) == DroppedByCount(keys[..i], answered)
      + if multiset(keys[..i + 1])[keys[i]] > answered[keys[i]] then [keys[i]] else []
  {
    assert keys[..i + 1] == keys[..i] + [keys[i]] && keys[..i + 1][..i] == keys[..i];
  }

  method SendStockChunks(chunks: seq<seq<StockEntry>>, outcomes: seq<Sent<StockAnswer>>)
    returns (run: BulkRun)
    requires |outcomes| == |chunks|
    ensures run == RunOf(StockRows, chunks, outcomes)
  {
    var results: seq<BulkResult> := [];
    for i := 0 to |chunks|
      invariant forall k | 0 <= k < i :: !Aborts(outcomes[k])
      invariant results == RowsOf(StockRows, chunks[..i], outcomes[..i])
    {
      if Aborts(outcomes[i]) {
        SurvivesIs(outcomes, i);
      }
      RowsOfGrows(StockRows, chunks, outcomes, i);
      match outcomes[i]
      case EncodeFailed => return BulkRun([], true);
      case Failed(over, status, message) =>
        if over || !ChunkRejected(status) {
          return BulkRun(results, true);
        }
        var rows := StockResults(chunks[i], FAILED, message);
        results := results + rows;
      case Accepted(reply) =>
        var rows := StockChunkResults(chunks[i], reply);
        results := results + rows;
    }
    SurvivesIs(outcomes, |chunks|);
    run := BulkRun(results, false);
  }

  // --- what counting promises ---

  function FailedRows(rows: seq<BulkResult>): seq<BulkResult> {
    if rows == [] then []
    else
      var n := |rows| - 1;
      FailedRows(rows[..n]) + if rows[n].status == FAILED then [rows[n]] else []
  }

  /**
   An answered chunk: the answer's own rows, and for each key exactly the shortfall of
   answers in FAILED rows. So there are never fewer rows than entries, key by key.
  */
  lemma ChunkAccounting(chunk: seq<StockEntry>, items: seq<StockAnswer>)
    ensures var sent := EntryKeys(chunk);
      var answered := multiset(AnswerKeys(sent, items));
      var rows := StockRows(chunk, Accepted(Answered(items)));
      && |rows| >= |items|
      && rows[..|items|] == AnswerRows(sent, items)
      && (forall r | r in rows[|items|..] :: r.status == FAILED)
      && (forall k :: multiset(Keys(rows[|items|..]))[k] == Shortfall(multiset(sent)[k], answered[k]))
      && |rows| == |items| + |multiset(sent) - answered|
      && multiset(sent) <= multiset(Keys(rows))
      && |rows| >= |chunk|
  {
    var sent := EntryKeys(chunk);
    var answered := multiset(AnswerKeys(sent, items));
    var dropped := DroppedByCount(sent, answered);
    var rows := StockRows(chunk, Accepted(Answered(items)));
    CountLeavesOutShortfall(sent, answered);
    AnsweredRowsSplit(chunk, items);
    Sizes(sent, AnswerKeys(sent, items), dropped);
  }

  lemma AnsweredRowsSplit(chunk: seq<StockEntry>, items: seq<StockAnswer>)
    ensures var sent := EntryKeys(chunk);
      var dropped := DroppedByCount(sent, multiset(AnswerKeys(sent, items)));
      var rows := StockRows(chunk, Accepted(Answered(items)));
      && |rows| >= |items|
      && rows[..|items|] == AnswerRows(sent, items)
      && rows[|items|..] == RowsFor(dropped, FAILED, NO_RESULT)
      && Keys(rows) == AnswerKeys(sent, items) + dropped
  {
    var sent := EntryKeys(chunk);
    var dropped := DroppedByCount(sent, multiset(AnswerKeys(sent, items)));
    RowKeysAppend(AnswerRows(sent, items), RowsFor(dropped, FAILED, NO_RESULT));
  }

  lemma Sizes(sent: seq<string>, answers: seq<string>, dropped: seq<string>)
    requires multiset(dropped) == multiset(sent) - multiset(answers)
    ensures |dropped| == |multiset(sent) - multiset(answers)|
    ensures multiset(sent) <= multiset(answers + dropped)
    ensures |answers + dropped| >= |sent|
  {
  }

  lemma CoveringIsLonger(sent: seq<string>, rows: seq<string>)
    requires multiset(sent) <= multiset(rows)
    ensures |sent| <= |rows|
  {
    assert multiset(rows) == multiset(sent) + (multiset(rows) - multiset(sent));
    assert |multiset(sent)| == |sent| && |multiset(rows)| == |rows|;
  }

  /**
   On the same chunk and answer, the listing command's set would report no more failures
   than this count does, and strictly fewer exactly when a key several entries share was
   answered for only some of them.
  */
  lemma NeverFewerFailuresThanSet(chunk: seq<StockEntry>, items: seq<StockAnswer>)
    ensures var sent := EntryKeys(chunk);
      var answered := multiset(AnswerKeys(sent, items));
      var failures := |StockRows(chunk, Accepted(Answered(items)))| - |items|;
      && |DroppedBySet(sent, answered)| <= failures
      && (|DroppedBySet(sent, answered)| < failures <==> PartlyAnswered(sent, answered))
  {
    var sent := EntryKeys(chunk);
    CountingFindsMore(sent, multiset(AnswerKeys(sent, items)));
  }

  lemma ChunkCovered(chunk: seq<StockEntry>, o: Sent<StockAnswer>)
    requires !Aborts(o)
    ensures multiset(EntryKeys(chunk)) <= multiset(Keys(StockRows(chunk, o)))
  {
    if o.Accepted? && o.reply.Answered? {
      ChunkAccounting(chunk, o.reply.items);
    }
  }

  lemma {:induction false} RowsCoverEntries(chunks: seq<seq<StockEntry>>, outcomes: seq<Sent<StockAnswer>>)
    requires |outcomes| == |chunks|
    requires forall i | 0 <= i < |outcomes| :: !Aborts(outcomes[i])
    ensures multiset(EntryKeys(Concat(chunks))) <= multiset(Keys(RowsOf(StockRows, chunks, outcomes)))
  {
    if chunks != [] {
      var n := |chunks| - 1;
      RowsCoverEntries(chunks[..n], outcomes[..n]);
      ChunkCovered(chunks[n], outcomes[n]);
      ConcatSnoc(chunks);
      KeysAppend(Concat(chunks[..n]), chunks[n]);
      RowKeysAppend(RowsOf(StockRows, chunks[..n], outcomes[..n]), StockRows(chunks[n], outcomes[n]));
    }
  }

  lemma KeysAppend(a: seq<StockEntry>, b: seq<StockEntry>)
    ensures EntryKeys(a + b) == EntryKeys(a) + EntryKeys(b)
  {
  }

  /** The library's chunking: five hundred at a time, and whatever is left. */
  function Slices(entries: seq<StockEntry>): seq<seq<StockEntry>> {
    if entries == [] then []
    else if |entries| <= MAX_STOCK_UPSERT then [entries]
    else [entries[..MAX_STOCK_UPSERT]] + Slices(entries[MAX_STOCK_UPSERT..])
  }

  /** Fixed-size slices are the greedy cut for a plain count, so they too are the fewest. */
  lemma {:induction false} SlicesAreGreedy(current: seq<StockEntry>, rest: seq<StockEntry>)
    requires |current| <= MAX_STOCK_UPSERT && (current == [] ==> rest == [])
    ensures Cut(FitsRequest, current, rest) == Slices(current + rest)
    decreases |rest|
  {
    if rest == [] {
      assert current + rest == current;
    } else if |current| < MAX_STOCK_UPSERT {
      SlicesAreGreedy(current + [rest[0]], rest[1..]);
      assert current + [rest[0]] + rest[1..] == current + rest;
    } else {
      SlicesAreGreedy([rest[0]], rest[1..]);
      assert [rest[0]] + rest[1..] == rest;
      assert (current + rest)[..MAX_STOCK_UPSERT] == current && (current + rest)[MAX_STOCK_UPSERT..] == rest;
    }
  }

  /** The requests hold the file in order and no other split into requests of that size has fewer. */
  lemma {:induction false} RequestsAreFewest(entries: seq<StockEntry>)
    ensures Concat(Slices(entries)) == entries
    ensures forall c | c in Slices(entries) :: 1 <= |c| <= 500
    ensures forall other :: Concat(other) == entries && (forall c | c in other :: 1 <= |c| <= 500) ==>
      |Slices(entries)| <= |other|
  {
    CutIsOptimal(FitsRequest, entries);
    if entries != [] {
      assert [] + [entries[0]] == [entries[0]];
      SlicesAreGreedy([entries[0]], entries[1..]);
      assert [entries[0]] + entries[1..] == entries;
    }
    assert Slices(entries) == Cut(FitsRequest, [], entries);
    forall other | Concat(other) == entries && forall c | c in other :: 1 <= |c| <= 500
      ensures |Slices(entries)| <= |other|
    {
      assert Partition(FitsRequest, entries, other);
    }
  }

  /** A run that completes has a row for every stock of the file, counted and not merely mentioned. */
  lemma CompletedRunAccountsForFile(entries: seq<StockEntry>, outcomes: seq<Sent<StockAnswer>>)
    requires |outcomes| == |Slices(entries)|
    ensures var run := RunOf(StockRows, Slices(entries), outcomes);
      !run.aborted ==>
        && multiset(EntryKeys(entries)) <= multiset(Keys(run.results))
        && |entries| <= |run.results|
  {
    var chunks := Slices(entries);
    assert Concat(chunks) == entries by {
      RequestsAreFewest(entries);
    }
    if Survives(outcomes) == |outcomes| {
      assert chunks[..|chunks|] == chunks && outcomes[..|chunks|] == outcomes;
      RowsCoverEntries(chunks, outcomes);
      CoveringIsLonger(EntryKeys(entries), Keys(RowsOf(StockRows, chunks, outcomes)));
    }
  }

  /**
   A run that stops early: it reports exactly the requests before the one that stopped
   it, unless that request could not even be encoded, in which case it reports nothing.
   A request accepted and then described unreadably is reported UNKNOWN throughout.
  */
  lemma {:induction false} AbortedRunReportsItsPrefix(chunks: seq<seq<StockEntry>>, outcomes: seq<Sent<StockAnswer>>, i: nat)
    requires |outcomes| == |chunks| && i < |chunks|
    requires Aborts(outcomes[i]) && forall k | 0 <= k < i :: !Aborts(outcomes[k])
    ensures RunOf(StockRows, chunks, outcomes).aborted
    ensures RunOf(StockRows, chunks, outcomes).results ==
      if outcomes[i].EncodeFailed? then [] else RowsOf(StockRows, chunks[..i], outcomes[..i])
    ensures !outcomes[i].EncodeFailed? ==>
      multiset(EntryKeys(Concat(chunks[..i]))) <= multiset(Keys(RunOf(StockRows, chunks, outcomes).results))
  {
    SurvivesIs(outcomes, i);
    RowsCoverEntries(chunks[..i], outcomes[..i]);
  }

  lemma UnreadableIsUnknown(chunk: seq<StockEntry>)
    ensures var rows := StockRows(chunk, Accepted(Unreadable));
      && Keys(rows) == EntryKeys(chunk)
      && (forall r | r in rows :: r.status == "UNKNOWN")
      && FailedRows(rows) == []
  {
    NoFailedRows(StockRows(chunk, Accepted(Unreadable)));
  }

  lemma {:induction false} NoFailedRows(rows: seq<BulkResult>)
    requires forall r | r in rows :: r.status != FAILED
    ensures FailedRows(rows) == []
  {
    if rows != [] {
      NoFailedRows(rows[..|rows| - 1]);
    }
  }

  // --- the same, told from the answer's own fields ---

  /** How many items say they are stock k. */
  function UnderId(items: seq<StockAnswer>, k: string): nat {
    if items == [] then 0
    else UnderId(items[..|items| - 1], k) + if items[|items| - 1].id == k then 1 else 0
  }

  /** How many items are of article k, with no id or one that was not sent. */
  function UnderArticle(items: seq<StockAnswer>, sent: set<string>, k: string): nat {
    if items == [] then 0
    else
      var item := items[|items| - 1];
      UnderArticle(items[..|items| - 1], sent, k)
      + if item.tenantArticleId == k && (item.id == "" || item.id !in sent) then 1 else 0
  }

  function SentKeys(chunk: seq<StockEntry>): set<string> {
    set e | e in chunk :: e.key
  }

  function CountSent(chunk: seq<StockEntry>, k: string): nat {
    if chunk == [] then 0
    else CountSent(chunk[..|chunk| - 1], k) + if chunk[|chunk| - 1].key == k then 1 else 0
  }

  /** The answers entry key k has: those under it as an id, if it was sent as one, and those under it as an article. */
  function AnswersFor(chunk: seq<StockEntry>, items: seq<StockAnswer>, k: string): nat {
    (if k != "" && k in SentKeys(chunk) then UnderId(items, k) else 0) + UnderArticle(items, SentKeys(chunk), k)
  }

  lemma {:induction false} AnswersAreCounted(chunk: seq<StockEntry>, items: seq<StockAnswer>, k: string)
    ensures multiset(AnswerKeys(EntryKeys(chunk), items))[k] == AnswersFor(chunk, items, k)
  {
    if items != [] {
      var n := |items| - 1;
      var sent := EntryKeys(chunk);
      AnswersAreCounted(chunk, items[..n], k);
      assert AnswerKeys(sent, items) == AnswerKeys(sent, items[..n]) + [AnswerKey(sent, items[n])];
      SentAreKeys(chunk, items[n].id);
    }
  }

  lemma SentAreKeys(chunk: seq<StockEntry>, k: string)
    ensures k in SentKeys(chunk) <==> k in EntryKeys(chunk)
  {
    if k in EntryKeys(chunk) {
      var i :| 0 <= i < |chunk| && EntryKeys(chunk)[i] == k;
      assert chunk[i] in chunk;
    }
  }

  lemma {:induction false} SentIsCounted(chunk: seq<StockEntry>, k: string)
    ensures multiset(EntryKeys(chunk))[k] == CountSent(chunk, k)
  {
    if chunk != [] {
      var n := |chunk| - 1;
      SentIsCounted(chunk[..n], k);
      assert EntryKeys(chunk) == EntryKeys(chunk[..n]) + [chunk[n].key];
    }
  }

  /**
   An answered chunk begins with one row per item, with the item's facility and status, under
   the item's id when that was sent and under its article otherwise.
  */
  lemma AnswersComeFirst(chunk: seq<StockEntry>, items: seq<StockAnswer>)
    ensures var rows := StockRows(chunk, Accepted(Answered(items)));
      && |rows| >= |items|
      && forall i | 0 <= i < |items| ::
           && rows[i].key == (if items[i].id != "" && items[i].id in SentKeys(chunk) then items[i].id else items[i].tenantArticleId)
           && rows[i].facility == items[i].facilityRef && rows[i].status == items[i].status
  {
    var rows := StockRows(chunk, Accepted(Answered(items)));
    forall i | 0 <= i < |items|
      ensures rows[i] == AnswerRows(EntryKeys(chunk), items)[i]
      ensures items[i].id in SentKeys(chunk) <==> items[i].id in EntryKeys(chunk)
    {
      SentAreKeys(chunk, items[i].id);
    }
  }

  /** And then come, for each key, exactly as many FAILED rows as its entries outnumber its answers. */
  lemma {:induction false} ShortfallFollows(chunk: seq<StockEntry>, items: seq<StockAnswer>, k: string)
    ensures var dropped := StockRows(chunk, Accepted(Answered(items)))[|items|..];
      && (forall r | r in dropped :: r.status == "FAILED")
      && multiset(Keys(dropped))[k] ==
           (if CountSent(chunk, k) <= AnswersFor(chunk, items, k) then 0
            else CountSent(chunk, k) - AnswersFor(chunk, items, k))
  {
    ChunkAccounting(chunk, items);
    AnswersAreCounted(chunk, items, k);
    SentIsCounted(chunk, k);
  }

  lemma NoneOfThatKey(rows: seq<BulkResult>, k: string)
    requires multiset(Keys(rows))[k] == 0
    ensures forall r | r in rows :: r.key != k
  {
    forall i | 0 <= i < |rows| ensures rows[i].key != k {
      assert Keys(rows)[i] in multiset(Keys(rows));
    }
  }

  /** An update answered under its id is not reported as dropped. */
  lemma AnsweredUpdateIsNotDropped(chunk: seq<StockEntry>, items: seq<StockAnswer>, k: string)
    requires k != "" && 0 < CountSent(chunk, k) <= UnderId(items, k)
    ensures forall r | r in StockRows(chunk, Accepted(Answered(items)))[|items|..] :: r.key != k
  {
    ShortfallFollows(chunk, items, k);
    SentIsCounted(chunk, k);
    SentAreKeys(chunk, k);
    NoneOfThatKey(StockRows(chunk, Accepted(Answered(items)))[|items|..], k);
  }

  /** A chunk the API refused has a FAILED row per entry, in order, with the refusal as its reason. */
  lemma RejectedIsFailed(chunk: seq<StockEntry>, over: bool, status: Option<int>, message: string)
    ensures var rows := StockRows(chunk, Failed(over, status, message));
      && |rows| == |chunk|
      && forall i | 0 <= i < |rows| ::
           rows[i].key == chunk[i].key && rows[i].status == "FAILED" && rows[i].reason == message
  {
    var rows := StockRows(chunk, Failed(over, status, message));
    forall i | 0 <= i < |rows| ensures rows[i].key == chunk[i].key && rows[i] in rows {
      assert Keys(rows)[i] == EntryKeys(chunk)[i];
    }
  }
}
