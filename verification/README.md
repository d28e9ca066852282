# A verified model of fft's kernels

`fft` is a command line client, with a terminal UI, for an order fulfilment API. Most of it
is commands, tables and help text. This project models the few places where it is an
algorithm or a protocol, and proves what each of them promises:

- **The UI's command runner** (`TuiRunner`, `RunnerSafety`, `RunnerOrder`, `RunnerEvents`,
  `RunnerProgress`, `RunnerShutdown`, `RunnerHistory`). Runs share four slots, a readers/writer lock on the config file and one
  events channel, and the runs that must be alone form a chain. Every move of every goroutine
  and every call of the UI is a labelled step; a theorem about the runner is about every
  history of steps. `CliRunner` is the object the UI holds, and its methods are proved to be
  the UI's labels.
- **What is kept of a run's output** (`RunOutput`): the buffer that keeps the first bytes,
  and the writer that forwards the newest ones and owns up to what was missed.
- **The session's token sources** (`SessionTokens`), and the same table under the runner
  (`RunnerTokens`).
- **The search body check** (`SearchBody`): what it refuses can be taken for two different
  searches, and what it accepts cannot, unless a null is left in it. Which of those nulls the
  program itself misreads is settled exactly.
- **The edit distance** behind suggestions (`EditDistance`).
- **Bulk writes** (`Greedy`, `Bulk`, `ListingUpsert`, `StockUpsert`): cutting a file into
  requests, and accounting for every entry afterwards. `HelpWrap` is the same cut with words
  and lines.
- **The route of a sourcing option** (`Sourcing`).
- **The caching token source** (`AuthCache`): what an interrupted save leaves behind, and how
  often a client can sign in.
- **Flag names of generated commands** (`FlagNames`).

Code that changes things in place is a class or a method with a loop, proved equal to a
function; what the source promises is then proved of the function. A method that stands for
one critical section is one step, because the source runs it under a mutex.

## Where the code and what is said about it differ

The model follows the code.

- A comment says exclusive runs go "in the order they were started" (`cmd/fft/tui_runner.go:308-310`).
  A run cancelled while it waits for its predecessor still releases its successor, which may
  then go first. `RunnerSafety.OvertakingHappens` is such a history, and
  `RunnerOrder.OrderHoldsExactlyInLine` says exactly when the order of any two exclusive runs
  is safe. Mutual exclusion does not depend on it.
- A comment says the product a chunk is held to is never larger than the sum of its costs
  (`cmd/fft/listing_upsert.go:267-272`). It is never smaller, and it is larger unless all costs
  are equal (`ListingUpsert.SumUnderProduct`, `ListingUpsert.ProductCanBeLarger`). The
  conclusion drawn there stands: a chunk is within the budget either way.
- A comment says a graph that is not a single chain is listed instead (`cmd/fft/sourcing.go:304-308`).
  An option with a transfer from a node it does not list can still be printed as a chain
  (`Sourcing.IrregularChain`). For any option at all, a printed chain is the whole graph exactly
  when every transfer joins two listed nodes (`Sourcing.ChainIsWholeExactlyWhenListed`).
- A comment says null is refused where the schema has a type, because the model cannot tell null
  from absent (`cmd/fft/search_body.go:136-138`). A pointer to a type that decodes itself, such as
  a timestamp, counts as no type, and a null there is validated as absent and sent as null
  (`SearchBody.NullGetsThrough`). A null the decoder keeps is no such case: one under a union is
  read as it is sent (`SearchBody.UnionKeepsNull`). `SearchBody.ValidatedIsWhatIsSent` gives the
  exact condition for the program's own decoder, by the places where it loses a null;
  `SearchBody.UnambiguousExactlyWithoutNull` gives it for arbitrary readers, who may differ about
  any null at all.
- The send loops hand back the results so far with every error except one: a request that
  cannot be encoded discards them (`ListingUpsert.AbortedRunReportsItsPrefix`,
  `StockUpsert.AbortedRunReportsItsPrefix`). The entries are JSON that has already been decoded,
  so this error is not expected to happen; the model keeps the branch because the code does.

## Model

| member | source | states |
|---|---|---|
| `TuiRunner.CliRunner.constructor` | cmd/fft/tui_runner.go:238-266 | A new runner is the idle state every history starts from. |
| `TuiRunner.CliRunner.StartRun` | cmd/fft/tui_runner.go:273-323 | Starting refuses after shutdown, and otherwise adds one run: alone when asked or when it rewrites a file, and chained behind the last such run; nothing else changes. |
| `TuiRunner.CliRunner.CancelRun` | cmd/fft/tui_runner.go:369-376 | Cancelling ends the context of one run that is not over, and nothing else. |
| `TuiRunner.CliRunner.AnswerRun` | cmd/fft/tui_runner.go:379-391 | An answer reaches a run only for the question it has open, which it closes; any other answer is dropped. |
| `TuiRunner.CliRunner.BeginClose` | cmd/fft/tui_runner.go:479-486 | Exactly one caller of Close goes on to shut down; from then on nothing starts. |
| `RunnerSafety.SafeStep` | cmd/fft/tui_runner.go:494-590 | One step of any run or any call keeps the slot count, the lock's books and the chain of exclusive runs right. |
| `RunnerSafety.SafeAlways` | cmd/fft/tui_runner.go:494-590 | So does any history of steps, from any state where they are right. |
| `RunnerSafety.AtMostFour` | cmd/fft/tui_runner.go:507-516 | In every reachable state the slots taken are exactly the runs between taking one and giving it back, at most four, and a run that waits for a slot can take one exactly when fewer than four are taken. |
| `RunnerSafety.ExclusiveRunsAlone` | cmd/fft/tui_runner.go:548-582 | In every reachable state, while an exclusive run is between getting the lock and giving it back, any other run that far along is a streamed one that takes no lock. |
| `RunnerSafety.ChainKeptByMove` | cmd/fft/tui_runner.go:497-514 | A run past its wait either saw its predecessor end or gave up without executing. |
| `RunnerSafety.ExclusiveRunsInOrder` | cmd/fft/tui_runner.go:307-313 | When an exclusive run is past its wait and an earlier one is not over, some exclusive run between the two gave up waiting. |
| `RunnerSafety.OvertakingHappens` | cmd/fft/tui_runner.go:497-514 | A concrete history in which the third exclusive run executes while the first has not got its slot, because the second was cancelled in line. |
| `RunnerOrder.OrderHoldsExactlyInLine` | cmd/fft/tui_runner.go:307-313 | For any two exclusive runs in any reachable state, the earlier unfinished and the later still waiting, over all continuations that neither cancel a run between them nor shut down: the later is never past its wait before the earlier ends, if and only if no exclusive run between them gave up waiting or has its context over with its wait not over. |
| `RunnerOrder.KeptPlacesAreRespected` | cmd/fft/tui_runner.go:503-510 | While every exclusive run between the two keeps its place, the order holds whatever else happens. |
| `RunnerOrder.LeftPlaceIsPassed` | cmd/fft/tui_runner.go:497-514 | Once one of them does not, however many stand behind it, a continuation without cancel, start or shutdown lets the later run past its wait while the earlier is unfinished. |
| `RunnerProgress.NeverStuck` | cmd/fft/tui_runner.go:494-582 | With room for an event, every reachable state with an unfinished run has a step that moves some run on, or a question to answer. |
| `RunnerProgress.RunHelped` | cmd/fft/tui_runner.go:503-582 | The same, from the run that is waiting: for its predecessor, a slot, the lock or an answer, someone it waits for can move. |
| `RunnerProgress.HelpUsesUp` | cmd/fft/tui_runner.go:494-582 | Every such step uses up some of what is left to happen, a number over the phases of all runs. |
| `RunnerProgress.HistoriesAreBounded` | cmd/fft/tui_runner.go:494-582 | Without new starts, no history moves runs on more often than there was left to do. |
| `RunnerProgress.EveryStartCanEnd` | cmd/fft/tui_runner.go:494-582 | From every reachable state there is a continuation, with no cancel and no shutdown in it, to one where every run has ended. |
| `RunnerShutdown.CloseNeedsNoReader` | cmd/fft/tui_runner.go:804-823 | From every reachable stopped state, however full the events channel, all runs end by their own moves alone, after which Close can close the channel. |
| `RunnerShutdown.NeverStuckStopping` | cmd/fft/tui_runner.go:479-492 | In every reachable stopped state with an unfinished run some run can move, with no event read and no question answered. |
| `RunnerEvents.EndedRunToldAll` | cmd/fft/tui_runner.go:501-534 | Until shutdown begins, an ended run has sent Queued and Done, or Queued, Running, questions and chunks, and one last Done; a run under way has sent the beginning of that. |
| `RunnerEvents.EventsStayOrdered` | cmd/fft/tui_runner.go:804-823 | Even when a shutdown drops events, what arrives is in order and nothing follows a Done. |
| `RunnerEvents.OneAnswerEach` | cmd/fft/tui_runner.go:379-430 | Over any history a question gets at most one answer, and a command reads a yes only where the UI said yes to that question. |
| `RunnerEvents.InterruptedRunStops` | cmd/fft/tui_runner.go:419-429 | From the moment a run's context is over, on any continuation, it reads no further yes, and it never executes if it had not begun. |
| `RunnerEvents.CommandingHasExecuted` | cmd/fft/tui_runner.go:584-589 | Only a run that passed the look at its context under the lock is ever in its command. |
| `RunnerEvents.CancelledNeverExecutes` | cmd/fft/tui_runner.go:584-589 | A run whose context is over before it was let through under the lock is never in its command, on any continuation of any history. |
| `RunnerEvents.NoSendAfterClose` | cmd/fft/tui_runner.go:479-492 | Nothing is sent on the events channel after it is closed. |
| `RunnerHistory.StartedAs` | cmd/fft/tui_runner.go:295-313 | For good, a run is alone exactly when its start asked for it or rewrites a file, rewrites the config file exactly when its start does, and is streamed as asked. |
| `RunnerHistory.StartedAloneRunsAlone` | cmd/fft/tui_runner.go:304-313 | Over any history, a run started to be alone or to rewrite a file shares its section only with streamed runs that are not. |
| `RunnerHistory.CloseStartsNothing` | cmd/fft/tui_runner.go:281-285 | After a close, on any continuation, no run is added. |
| `RunnerHistory.YesOnlyWhereSaid` | cmd/fft/tui_runner.go:379-391 | Over any history, a run reads a yes to a question only if the UI answered yes to that run and that question. |
| `RunnerHistory.AnswerIsRead` | cmd/fft/tui_runner.go:379-430 | The first answer to an open question, whatever is answered after it, is the one the run can read: as a yes exactly when it was one and the run is not interrupted. |
| `RunnerHistory.WaitsOnlyForWhatItAsked` | cmd/fft/tui_runner.go:415-418 | Until shutdown begins, a run that waits for an answer has sent its question to the UI. |
| `RunnerHistory.CancelStops` | cmd/fft/tui_runner.go:369-376 | From a cancel of a run, or a stop of all, on any continuation: no further yes, no command unless it was let through before, and a way out of every wait for a turn, a slot or an answer. |
| `RunnerHistory.CancelledInLineNeverRuns` | cmd/fft/tui_runner.go:503-526 | A run cancelled before it looked at its context with a slot in hand is never announced as running. |
| `RunnerHistory.NothingIsLost` | cmd/fft/tui_runner.go:810-823 | Over any history, the events sent are those received and those still in the channel, which never holds more than 64. |
| `RunOutput.CappedBuffer.constructor` | cmd/fft/tui_runner.go:771-775 | A new buffer is empty and has reserved nothing. |
| `RunOutput.CappedBuffer.Write` | cmd/fft/tui_runner.go:779-793 | A write keeps what fits, records a drop when something did not, grows as GrownCap says, and reports everything as written. |
| `RunOutput.CappedBuffer.Grow` | cmd/fft/tui_runner.go:785-789 | Growing moves the kept bytes to a new array and changes nothing else. |
| `RunOutput.PutStaysWithin` | cmd/fft/tui_runner.go:779-802 | Any write keeps the reservation between what is held and the limit and within twice what is held, and all copying within twice the reservation. |
| `RunOutput.KeepsFirstBytes` | cmd/fft/tui_runner.go:766-802 | After any writes the buffer holds exactly the first limit bytes, is marked dropped exactly when more were written, has reserved at most the limit and at most twice what it holds, and has copied at most twice its reservation. |
| `RunOutput.StreamWriter.Write` | cmd/fft/tui_runner.go:685-697 | Everything goes to the capped buffer; the newest bytes stay pending, and cutting them is marked. |
| `RunOutput.StreamWriter.Take` | cmd/fft/tui_runner.go:701-710 | A take hands over what is pending with its mark, or nothing when there is neither, and leaves an empty writer. |
| `RunOutput.StreamWriter.Drop` | cmd/fft/tui_runner.go:714-718 | A chunk that was not delivered marks the writer. |
| `RunOutput.Flush` | cmd/fft/tui_runner.go:751-764 | A flush delivers the chunk when there is room, and otherwise delivers nothing and leaves the writer marked. |
| `RunOutput.DeliveredInTurn` | cmd/fft/tui_runner.go:674-764 | Over any interleaving of writes and flushes, delivered chunks are disjoint increasing intervals of the bytes written, and one is flagged exactly when it does not start where the one before ended. |
| `RunOutput.HoldsTheNewest` | cmd/fft/tui_runner.go:667-697 | Over any interleaving, what waits for the next flush is everything written since the last one, or its newest limit bytes. |
| `RunOutput.NoFlagMeansNothingLost` | cmd/fft/tui_runner.go:667-672 | With everything flushed and no delivered chunk flagged, the chunks together are exactly what was written. |
| `SessionTokens.SessionTokens.constructor` | cmd/fft/tui_tokens.go:24-36 | A new table has no source, no build and no forget behind it. |
| `SessionTokens.SessionTokens.Enter` | cmd/fft/tui_tokens.go:69-84 | A caller uses the kept source, waits for the build in flight, or starts the one build of its key, stamped with the generation. |
| `SessionTokens.SessionTokens.Finish` | cmd/fft/tui_tokens.go:88-98 | A finished build gives up its own place only, and its source is kept only when no forget came in between. |
| `SessionTokens.SessionTokens.Forget` | cmd/fft/tui_tokens.go:105-111 | A forget drops every source and every place, and starts a generation. |
| `SessionTokens.StepKeepsInv` | cmd/fft/tui_tokens.go:66-111 | Every event keeps: sources and places belong to the current generation, every caller is with a build of its own key and generation, and of two builds of one key and generation the earlier failed. |
| `SessionTokens.AtMostOneBuild` | cmd/fft/tui_tokens.go:69-98 | Over any history, at most one build per key and generation is in flight or has succeeded. |
| `SessionTokens.NeverServesForgotten` | cmd/fft/tui_tokens.go:66-111 | A call that began after a forget never returns a source whose build began before it, however calls, builds and forgets interleave. |
| `SessionTokens.OnlyWorkingSourcesAreKept` | cmd/fft/tui_tokens.go:69-98 | Over any history, what a caller is given at once is the source of a build of its key that an event ended without an error. |
| `SessionTokens.NextCallerIsServed` | cmd/fft/tui_tokens.go:88-98 | When a build ends with no forget since its call began, the next caller of that key is given its source if it worked, and builds again if it did not. |
| `SessionTokens.WaitersWakeWhenItEnds` | cmd/fft/tui_tokens.go:74-78 | A caller that waits for a build can come back exactly when some event has ended it, and comes back with it. |
| `RunnerTokens.ForgetsAlone` | cmd/fft/tui_runner.go:549-559 | While a run forgets the tokens, no other command that takes the lock is under way. |
| `RunnerTokens.StepKeepsSound` | cmd/fft/tui_runner.go:549-582 | Every step of the runner keeps: a command under the lock asked for its sources after every rewrite there has been. |
| `RunnerTokens.NoSourceFromBeforeRewrite` | cmd/fft/tui_runner.go:549-559 | Over any history of both machines, a command under the lock is never handed a source whose build began before a config rewrite that has happened. |
| `RunnerTokens.RewriteForgets` | cmd/fft/tui_runner.go:549-559 | Over any history, a run that was started to rewrite the config file has forgotten the tokens once it has executed and is giving up the lock. |
| `RunnerTokens.RewriteCutsOffOldSources` | cmd/fft/tui_runner.go:549-559 | Told from the history alone: of the builds begun while a run started to rewrite the config file was in its command, none is handed to a command under the lock once that run has let go of it. |
| `RunnerTokens.SwitchCutsOffOldSources` | cmd/fft/tui_runner.go:439-476 | Whoever asks after a switch of project or emulator is never handed a source whose build began before it. |
| `SearchBody.CheckSearchKeys` | cmd/fft/search_body.go:142-146 | The check passes exactly when the walk from the known schema does, and fails with the walk's error. |
| `SearchBody.Decoder.Value` | cmd/fft/search_body.go:153-174 | Reading a value leaves the cursor where the walk leaves it, or fails as the walk does. |
| `SearchBody.Decoder.Object` | cmd/fft/search_body.go:176-220 | The same for an object, whose keys are collected in a loop. |
| `SearchBody.Decoder.Array` | cmd/fft/search_body.go:222-230 | The same for an array. |
| `SearchBody.KnownSchema` | cmd/fft/search_body.go:250-260 | A schema is the type behind all its pointers, and is known exactly when that is neither an interface nor decodes itself. |
| `SearchBody.AcceptsExactlyClean` | cmd/fft/search_body.go:128-230 | On the tokens of a document followed by anything, the walk succeeds if and only if no object repeats a key, struct keys are spelled exactly and no null stands at a type; then it takes exactly that document. |
| `SearchBody.MembersExactlyClean` | cmd/fft/search_body.go:182-217 | The same inside an object, with the keys already seen. |
| `SearchBody.AcceptedIsClean` | cmd/fft/search_body.go:142-230 | On any tokens at all, what the walk accepts begins with the tokens of such a document. |
| `SearchBody.CutShortIsRefused` | cmd/fft/search_body.go:153-230 | No proper prefix of a document's tokens is accepted. |
| `SearchBody.ArraysAreTyped` | cmd/fft/search_body.go:166-171 | An array at a list type is accepted exactly when each item is accepted at the known schema of the element type, and elsewhere when each is accepted untyped. |
| `SearchBody.ObjectsAreTyped` | cmd/fft/search_body.go:176-220 | An object is accepted exactly when no two members share a key and each member is accepted: at a struct, its key is a field and its value is accepted at that field's known schema; at a map, at the element type's; elsewhere untyped. |
| `SearchBody.ScalarsAreTyped` | cmd/fft/search_body.go:159-174 | Of all other values only null is refused, and exactly where there is a type. |
| `SearchBody.ReadersAgree` | cmd/fft/search_body.go:129-138 | On an accepted document, two readers that know a field by its exact name read the same when they agree about every null in it, however they treat near names and repeated keys. |
| `SearchBody.UncleanTellsApart` | cmd/fft/search_body.go:129-138 | On a document that is refused, two such readers read different things. |
| `SearchBody.NullTellsApart` | cmd/fft/search_body.go:136-141 | On an accepted document, two such readers that disagree about any null in it, each by the place where it stands, read different things. |
| `SearchBody.UnambiguousExactlyWithoutNull` | cmd/fft/search_body.go:129-146 | No two such readers can differ on a document exactly when the check accepts it and it has no null. |
| `SearchBody.ValidatedIsWhatIsSent` | cmd/fft/search_body.go:129-141 | On an accepted document, the reading the program validated (keys fold, the last value wins, null makes a nil or is ignored or is kept, by its place) is the exact reading of the bytes sent if and only if no null stands at a struct field that can be nil or at a type that ignores null. |
| `SearchBody.NullGetsThrough` | cmd/fft/search_body.go:250-260 | A concrete null at a pointer to a self-decoding type: it is accepted, validated as if the key were absent, and sent as null. |
| `SearchBody.UnionKeepsNull` | cmd/fft/search_body.go:139-141 | A concrete null at an entry of a map of unions: it is accepted, and validated as the null that is sent. |
| `EditDistance.Distance` | internal/api/opmeta.go:283-304 | Two rows that trade places compute the recursive Levenshtein distance. |
| `EditDistance.DistanceIsShortestScript` | internal/api/opmeta.go:281-304 | That distance is the length of a shortest chain of single rune insertions, deletions and substitutions: one exists and none is shorter. |
| `EditDistance.DistanceZeroOnlyForEqual` | internal/api/opmeta.go:281-304 | It is 0 exactly for equal strings. |
| `EditDistance.DistanceSymmetric` | internal/api/opmeta.go:281-304 | It is symmetric. |
| `EditDistance.DistanceTriangle` | internal/api/opmeta.go:281-304 | It obeys the triangle inequality. |
| `EditDistance.OneEditMoves` | internal/api/opmeta.go:291-301 | One edit anywhere in a string moves its distance to any other by at most one. |
| `Greedy.CutIsOptimal` | cmd/fft/listing_upsert.go:278-312 | A left-to-right cut that closes a group only when the next item does not fit is a legal partition, and no legal partition into consecutive groups has fewer, for any idea of fitting that parts of a group inherit. |
| `ListingUpsert.ChunkUpsert` | cmd/fft/listing_upsert.go:278-312 | Chunking fails exactly when an entry is over the budget alone, naming the first; otherwise it is the greedy cut. |
| `ListingUpsert.ChunksAreFewest` | cmd/fft/listing_upsert.go:258-312 | The chunks are non-empty, concatenate to the file, keep count times largest cost and the sum of costs within 25, and no other legal chunking has fewer. |
| `ListingUpsert.NoSplitIsSmaller` | cmd/fft/listing_upsert.go:258-312 | No split of the file into non-empty requests in which every cost times the number of entries is at most 25 has fewer requests, and the chunks are such a split. |
| `ListingUpsert.SumUnderProduct` | cmd/fft/listing_upsert.go:267-272 | Count times largest cost is never smaller than the sum of the costs, and not larger exactly when all costs are equal. |
| `ListingUpsert.ProductCanBeLarger` | cmd/fft/listing_upsert.go:267-272 | Two entries whose costs sum to 21 and whose product is 40: the comment's inequality fails. |
| `ListingUpsert.ChunkResults` | cmd/fft/listing_upsert.go:386-392 | One row per entry, in order, under the entry's id. |
| `ListingUpsert.UpsertChunkResults` | cmd/fft/listing_upsert.go:410-448 | The rows of an accepted chunk: UNKNOWN throughout when the answer is unreadable, otherwise the answer's rows and a FAILED row for every entry whose id it never mentions. |
| `ListingUpsert.AnswersComeFirst` | cmd/fft/listing_upsert.go:428-446 | An answered chunk has one row per item, as the item has it, and then a FAILED row for exactly the entries whose id no item has, in order. |
| `ListingUpsert.UnreadableIsUnknown` | cmd/fft/listing_upsert.go:415-423 | A chunk accepted with an unreadable body has one UNKNOWN row per entry, in order. |
| `ListingUpsert.RejectedIsFailed` | cmd/fft/listing_upsert.go:382-392 | A chunk the API refused has one FAILED row per entry, in order, with the refusal as reason. |
| `ListingUpsert.SendUpsertChunks` | cmd/fft/listing_upsert.go:325-361 | The loop stops at the first request that aborts, with the rows of those before it. |
| `ListingUpsert.CompletedRunAccountsForFile` | cmd/fft/listing_upsert.go:314-361 | A run that completes has a row for the id of every listing in the file, whatever the server answered. |
| `ListingUpsert.AbortedRunReportsItsPrefix` | cmd/fft/listing_upsert.go:325-361 | A run aborted at a request reports exactly the rows of the requests before it, which account for their listings; one that could not be encoded reports no rows at all. |
| `Bulk.Survives` | cmd/fft/bulk.go:100-115 | A run gets as far as the first outcome that is neither accepted nor a rejection of the chunk's entries. |
| `Bulk.CutShortExactly` | cmd/fft/bulk.go:100-115 | A run is cut short exactly when some request could not be encoded, or failed with the context over, without a status, or with one other than 400, 404, 409 and 422. |
| `Bulk.RowsInOrder` | cmd/fft/listing_upsert.go:325-361 | Rows come request by request in the order of the file. |
| `Bulk.CountLeavesOutShortfall` | cmd/fft/stock_upsert.go:332-343 | Counting answers leaves out, for each key, exactly the entries sent minus the answers, or none. |
| `Bulk.CountingFindsMore` | cmd/fft/stock_upsert.go:283-294 | Counting leaves out everything a set of keys would, and strictly more exactly when a shared key was answered for some of its entries only. |
| `StockUpsert.FileAnswers` | cmd/fft/stock_upsert.go:309-330 | Each answer is filed under its id when that id was sent and under its article otherwise, and the counts are those of the filed keys. |
| `StockUpsert.ReportDropped` | cmd/fft/stock_upsert.go:332-343 | Counting the answers down reports, in the file's order, exactly the entries no answer is left for. |
| `StockUpsert.StockChunkResults` | cmd/fft/stock_upsert.go:295-346 | The two together, or UNKNOWN rows when the answer is unreadable. |
| `StockUpsert.SendStockChunks` | cmd/fft/stock_upsert.go:215-251 | The loop stops at the first request that aborts, with the rows of those before it. |
| `StockUpsert.StockResults` | cmd/fft/stock_upsert.go:363-369 | One row per entry, in order, under the entry's key. |
| `StockUpsert.ChunkAccounting` | cmd/fft/stock_upsert.go:280-346 | For every key exactly max(0, sent - answered) FAILED rows are added, so the rows are the answers plus the shortfalls, and never fewer than the entries, key by key. |
| `StockUpsert.AnswersComeFirst` | cmd/fft/stock_upsert.go:316-330 | An answered chunk begins with one row per item, with the item's facility and status, under the item's id when that was sent and under its article otherwise. |
| `StockUpsert.ShortfallFollows` | cmd/fft/stock_upsert.go:316-343 | Then come, for each key, exactly max(0, entries with the key - answers for it) FAILED rows, an answer being an item with that id, if it was sent, or an item of that article whose id is blank or was not sent. |
| `StockUpsert.AnsweredUpdateIsNotDropped` | cmd/fft/stock_upsert.go:309-343 | A stock sent under its id and answered under it as often is never reported as dropped. |
| `StockUpsert.RejectedIsFailed` | cmd/fft/stock_upsert.go:348-350 | A chunk the API refused has one FAILED row per entry, in order, with the refusal as reason. |
| `StockUpsert.NeverFewerFailuresThanSet` | cmd/fft/stock_upsert.go:283-294 | Never fewer failures than the set-based listing version, strictly more exactly when a duplicated key is partly answered. |
| `StockUpsert.UnreadableIsUnknown` | cmd/fft/stock_upsert.go:352-361 | A chunk accepted with an unreadable body has one UNKNOWN row per entry and no FAILED one. |
| `StockUpsert.RequestsAreFewest` | cmd/fft/stock_upsert.go:104-106 | Slices of five hundred hold the file in order, and no other split into requests of one to five hundred entries has fewer. |
| `StockUpsert.CompletedRunAccountsForFile` | cmd/fft/stock_upsert.go:215-251 | A run that completes has, for every key, at least as many rows as the file has entries. |
| `StockUpsert.AbortedRunReportsItsPrefix` | cmd/fft/stock_upsert.go:215-251 | A run aborted at a request reports exactly the rows of the requests before it, which account for their stocks; one that could not be encoded reports no rows at all. |
| `HelpWrap.Wrap` | cmd/fft/help.go:229-250 | Wrapping is the greedy cut of the words, where a line fits within the width in bytes or is one word. |
| `HelpWrap.LinesAreFewest` | cmd/fft/help.go:228-250 | The lines hold the words in order, only a single word ever exceeds the width, and no other breaking has fewer lines. |
| `HelpWrap.WrappedLines` | cmd/fft/help.go:228-250 | Split at its newlines, wrapped text is the lines with single spaces between the words, each within the width unless it is one word, and no layout of the words has fewer lines. |
| `HelpWrap.FieldsHoldText` | cmd/fft/help.go:230-233 | The words of a text hold all of it but the white space; none is empty or has white space in it. |
| `HelpWrap.WordsReadBack` | cmd/fft/help.go:230-233 | Words set apart by single spaces are the words they were. |
| `HelpWrap.RuneIsAsWideAsEncoded` | cmd/fft/help.go:239-240 | A character is as wide as its UTF-8 encoding is long, and the encoding can be read back. |
| `HelpWrap.SpacesAre` | cmd/fft/help.go:230-233 | What separates words is Unicode's white space, character by character. |
| `HelpWrap.WrapKeepsWords` | cmd/fft/help.go:228-250 | Splitting the wrapped text into words gives the words of the text, at any width. |
| `Sourcing.Route` | cmd/fft/sourcing.go:309-366 | For any option: blank without nodes, a chain exactly when there is a route through every node, and then its names in order; otherwise the nodes as listed. |
| `Sourcing.Follow` | cmd/fft/sourcing.go:341-365 | The walk ends on any graph, and passes every node exactly when there is a route. |
| `Sourcing.Starts` | cmd/fft/sourcing.go:328-335 | The nodes nothing comes into, each once, in no particular order. |
| `Sourcing.TransferMaps` | cmd/fft/sourcing.go:318-326 | For each id the last transfer out of it, and the counts in and out. |
| `Sourcing.RoutesAgree` | cmd/fft/sourcing.go:328-366 | There is at most one route, so the cell does not depend on the order a map is read in. |
| `Sourcing.ChainExactlyForSinglePath` | cmd/fft/sourcing.go:301-366 | With distinct non-empty ids and transfers between listed nodes, there is a route exactly when the transfers are the legs of one directed path through every node, each used once; the names are that path's. |
| `Sourcing.ChainIsWholeExactlyWhenListed` | cmd/fft/sourcing.go:341-366 | For any option with a route, of any shape: the transfers are the legs of one directed path through every node if and only if every transfer joins two listed nodes. |
| `Sourcing.ChainNamesItsNodes` | cmd/fft/sourcing.go:314-317 | Each name of a chain is the name of the node the route passes there. |
| `Sourcing.ChainNamesAllNodes` | cmd/fft/sourcing.go:361-366 | The names of a chain are those of the option's nodes, each as often. |
| `Sourcing.IrregularChain` | cmd/fft/sourcing.go:341-366 | A transfer from an unlisted node leaves a chain printed that is not the whole graph. |
| `Sourcing.TotalQuantity` | cmd/fft/sourcing.go:156-166 | The sum of the quantities, an absent one counting as one. |
| `Sourcing.Sourced` | cmd/fft/sourcing.go:276-289 | The sum over the nodes nothing leaves. |
| `Sourcing.QuantityAdds` | cmd/fft/sourcing.go:156-166 | Quantities of joined lists add up, and one item counts for its quantity, or one. |
| `Sourcing.SourcedIsAtRest` | cmd/fft/sourcing.go:276-289 | What is sourced is the quantity of the items of all nodes no transfer leaves, taken together; with no transfers, of all nodes. |
| `Sourcing.ChainCountsLastNode` | cmd/fft/sourcing.go:276-289 | In the chain case what is sourced is the last node's quantity, counted once, or nothing when a transfer leaves that node for a blank id, which transfers between listed nodes cannot. |
| `AuthCache.SecretStore.SaveToken` | internal/auth/cache.go:242-262 | The writes land in the order refresh token, id token, expiry, up to the first that does not; a read-only store is not an error and any other failure is. |
| `AuthCache.SavedExactly` | internal/auth/cache.go:253-262 | A save succeeds exactly when every write that fails comes after one a read-only store refused. |
| `AuthCache.LoadsWhatWasSaved` | internal/auth/cache.go:218-240 | What a complete save wrote is what a load gets back, the expiry to the second. |
| `AuthCache.NothingReadIsNoToken` | internal/auth/cache.go:218-240 | With nothing readable there is no token, and fresh means an id and more than five minutes left. |
| `AuthCache.SavesRecord` | internal/auth/cache.go:242-262 | After any saves, each cut off anywhere, the id on record is of the last save that wrote one and the expiry of the last complete save, which is no later. |
| `AuthCache.TruthfulExactlyInOrder` | internal/auth/cache.go:242-262 | Every way of cutting saves off leaves an expiry no later than that of the id beside it if and only if no token expires, to the second, after one minted later. |
| `AuthCache.LoadedFreshIsFresh` | internal/auth/cache.go:218-240 | With expiries that do not go backwards, a loaded token judged fresh is fresh, whichever entries could be read. |
| `AuthCache.CachingTokenSource.constructor` | internal/auth/cache.go:68-73 | A new source holds nothing and has not looked in the store. |
| `AuthCache.CachingTokenSource.EnsureLoaded` | internal/auth/cache.go:106-111 | The store is read once. |
| `AuthCache.CachingTokenSource.RenewWith` | internal/auth/cache.go:114-125 | A minted token is kept in memory even when saving it fails, and is returned exactly when the save did not. |
| `AuthCache.CachingTokenSource.GetToken` | internal/auth/cache.go:77-91 | An id handed out is fresh or newly minted; there is none exactly when one was needed and minting or saving failed. |
| `AuthCache.CachingTokenSource.RenewNow` | internal/auth/cache.go:96-102 | A forced renewal mints whatever is cached. |
| `AuthCache.NextSessionSignsInOnlyWhenStale` | internal/auth/cache.go:77-125 | After a mint that was saved whole, a new source on the same store mints exactly when the token has no id or, to the second, no more than five minutes left, and otherwise holds that token. |
| `AuthCache.SignInsAreSpaced` | internal/auth/cache.go:77-125 | With a clock that does not go back and mints that live at least L, k sign-ins span at least (k - 1)(L - Leeway), for any number of callers, any stored state and any forced renewals in between. |
| `FlagNames.FlagName` | cmd/fft/generated.go:472-487 | The search ends for every finite set of taken names, after at most as many failures as there are names, on the first free candidate. |
| `FlagNames.PlainNameFirst` | cmd/fft/generated.go:472-487 | A parameter has its plain name whenever that is free, then its name with the place it travels in, then its name with the first free number from 2 on. |
| `FlagNames.DecimalIsTheNumber` | cmd/fft/generated.go:481-486 | The number in a name is written in decimal, without a leading zero. |
| `FlagNames.CandidatesDistinct` | cmd/fft/generated.go:475-486 | The candidates, plain, by place and numbered, never repeat. |
| `FlagNames.TriedWithinTaken` | cmd/fft/generated.go:481-486 | So no more candidates can be taken than there are taken names. |
| `FlagNames.RegisterParamFlags` | cmd/fft/generated.go:425-433 | The names given to an operation's parameters are pairwise distinct and none is reserved, whatever the parameters are called. |
| `FlagNames.NamesAreDetermined` | cmd/fft/generated.go:425-487 | The names are a function of the parameters and the reserved names. |

## Left out

- The command tree, tables, styles, help text other than wrapping, and shell completion: user interface with no deep state.
- HTTP, pagination, the generated client and the event transports: a request is an arbitrary outcome, a sign-in an arbitrary result.
- Catalog annotations: what Start learns about a command line is a parameter of the start.
- The command a run executes: it may ask, write and finish; how often it still asks or its output is forwarded is a finite number given at its start.
- The goroutine of a run is a series of moves on values and not a method, because any other goroutine can step between two of its statements.
- Real time: a tick of the flush loop is a step that may happen at any moment, and clock readings are inputs.
- The project, emulator, stdin, component registry and exit codes of a run: carried along by the source, read by none of the properties.
- Steps with no observer between them are one step: removing a question and sending its answer; closing a run's done channel, forgetting its cancel function and leaving the wait group.
- `SessionTokens.SessionTokens.Forget`: does not model the wrap-around of the 64-bit generation counter, because 2^64 forgets do not happen in a session.
- Question ids and run ids are unbounded for the same reason.
- Several processes on one credential store, and the text format of a stored expiry: one writer, and a whole number of seconds.
- The choice between refreshing and signing in with a password, and the address carried along with a token: mint is an arbitrary result.
- `SearchBody.CheckSearchKeys`: does not model the path named in an error, because it only tells the user where to look.
- `SearchBody.ValidatedIsWhatIsSent`: a type that decodes itself is one that keeps its bytes, as the unions do, or one that ignores null, as a timestamp does; a number is read as its text, so the precision its model would lose is not part of this model.
- The lexer and the reflection behind field names: the walk starts from tokens, and a struct type is its field map. A token out of place is refused where the walker meets it, as the decoder would.
- The ranking and cut-off of suggestions: a sort by distance and name.
- Reading upsert files, and the bytes of a request: an entry is its key and its cost, which may be any natural number.
- `Sourcing.TotalQuantity`: does not model floating point rounding; quantities are real numbers.
- The words shown for a node, and kebab-casing of parameter names: both are given.
- `HelpWrap.Wrap`: does not model bytes that are not UTF-8; a text is a string of characters with their UTF-8 lengths.
- `EditDistance.Distance`: takes strings of runes, so the conversion of bytes that are not UTF-8 is not modelled.
