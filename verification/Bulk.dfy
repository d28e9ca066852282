/**
 What every chunked bulk write shares: the rows it reports, the rule that decides
 whether a failed request ends the run, and the two ways of working out which of the
 entries sent the API left out of its answer.
*/
module Bulk {
  import opened Wrappers

  const FAILED := "FAILED"
  const UNKNOWN := "UNKNOWN"

  datatype BulkResult = BulkResult(key: string, facility: string, status: string, reason: string)

  /** A body the API sent with a 2xx: a list of results, or bytes that do not decode. */
  datatype Reply<A> = Answered(items: seq<A>) | Unreadable

  /**
   What became of one request. Failed carries whether the context was already over, and
   the HTTP status when the API answered at all.
  */
  datatype Sent<A> =
    | EncodeFailed
    | Accepted(reply: Reply<A>)
    | Failed(contextOver: bool, status: Option<int>, message: string)

  /** The results of a run, and whether it was cut short by an error. */
  datatype BulkRun = BulkRun(results: seq<BulkResult>, aborted: bool)

  /** The API refused this chunk's entries, as opposed to refusing fft. */
  predicate ChunkRejected(status: Option<int>) {
    status.Some? && status.value in {400, 404, 409, 422}
  }

  predicate Aborts<A>(o: Sent<A>) {
    match o
    case EncodeFailed => true
    case Accepted(_) => false
    case Failed(over, status, _) => over || !ChunkRejected(status)
  }

  /** How many requests go through before one ends the run. */
  function Survives<A>(outcomes: seq<Sent<A>>): (n: nat)
    ensures n <= |outcomes|
    ensures forall i | 0 <= i < n :: !Aborts(outcomes[i])
    ensures n < |outcomes| ==> Aborts(outcomes[n])
  {
    if outcomes == [] || Aborts(outcomes[0]) then 0
    else 1 + Survives(outcomes[1..])
  }

  /** The rows of a series of requests, each chunk's rows after the ones before it. */
  function RowsOf<E, A>(
    rows: (seq<E>, Sent<A>) -> seq<BulkResult>, chunks: seq<seq<E>>, outcomes: seq<Sent<A>>): seq<BulkResult>
    requires |chunks| == |outcomes|
  {
    if chunks == [] then []
    else
      var n := |chunks| - 1;
      RowsOf(rows, chunks[..n], outcomes[..n]) + rows(chunks[n], outcomes[n])
  }

  /**
   What a run amounts to: the rows of the requests before the one that ended it. Only a
   request that could not be encoded throws them away.
  */
  function RunOf<E, A>(
    rows: (seq<E>, Sent<A>) -> seq<BulkResult>, chunks: seq<seq<E>>, outcomes: seq<Sent<A>>): BulkRun
    requires |chunks| == |outcomes|
  {
    var n := Survives(outcomes);
    if n < |chunks| && outcomes[n].EncodeFailed? then BulkRun([], true)
    else BulkRun(RowsOf(rows, chunks[..n], outcomes[..n]), n < |chunks|)
  }

  lemma SurvivesIs<A>(outcomes: seq<Sent<A>>, n: nat)
    requires n <= |outcomes|
    requires forall i | 0 <= i < n :: !Aborts(outcomes[i])
    requires n < |outcomes| ==> Aborts(outcomes[n])
    ensures Survives(outcomes) == n
  {
  }

  /** A run is cut short exactly when one of its requests ends it. */
  lemma CutShortExactly<E, A>(
    rows: (seq<E>, Sent<A>) -> seq<BulkResult>, chunks: seq<seq<E>>, outcomes: seq<Sent<A>>)
    requires |chunks| == |outcomes|
    ensures RunOf(rows, chunks, outcomes).aborted <==>
      exists i :: 0 <= i < |outcomes| &&
        (|| outcomes[i].EncodeFailed?
         || (outcomes[i].Failed? &&
             (outcomes[i].contextOver || outcomes[i].status == None || outcomes[i].status.value !in {400, 404, 409, 422})))
  {
  }

  /** The rows come request by request, in the order of the file: splitting the requests splits the rows. */
  lemma {:induction false} RowsInOrder<E, A>(
    rows: (seq<E>, Sent<A>) -> seq<BulkResult>,
    chunks: seq<seq<E>>, outcomes: seq<Sent<A>>, more: seq<seq<E>>, others: seq<Sent<A>>)
    requires |chunks| == |outcomes| && |more| == |others|
    ensures RowsOf(rows, chunks + more, outcomes + others) == RowsOf(rows, chunks, outcomes) + RowsOf(rows, more, others)
    ensures |chunks| == 1 ==> RowsOf(rows, chunks, outcomes) == rows(chunks[0], outcomes[0])
    decreases |more|
  {
    if |chunks| == 1 {
      assert RowsOf(rows, chunks[..0], outcomes[..0]) == [];
    }
    if more == [] {
      assert chunks + more == chunks && outcomes + others == outcomes;
    } else {
      var n := |more| - 1;
      assert (chunks + more)[..|chunks + more| - 1] == chunks + more[..n];
      assert (outcomes + others)[..|chunks + more| - 1] == outcomes + others[..n];
      RowsInOrder(rows, chunks, outcomes, more[..n], others[..n]);
    }
  }

  lemma {:induction false} RowsOfGrows<E, A>(
    rows: (seq<E>, Sent<A>) -> seq<BulkResult>, chunks: seq<seq<E>>, outcomes: seq<Sent<A>>, n: nat)
    requires |chunks| == |outcomes| && n < |chunks|
    ensures RowsOf(rows, chunks[..n + 1], outcomes[..n + 1])
         == RowsOf(rows, chunks[..n], outcomes[..n]) + rows(chunks[n], outcomes[n])
  {
    assert chunks[..n + 1][..n] == chunks[..n] && outcomes[..n + 1][..n] == outcomes[..n];
  }

  // --- which entries the answer leaves out ---

  function Keys(rows: seq<BulkResult>): (keys: seq<string>)
    ensures |keys| == |rows| && forall i | 0 <= i < |rows| :: keys[i] == rows[i].key
  {
    seq(|rows|, i requires 0 <= i < |rows| => rows[i].key)
  }

  lemma RowKeysAppend(a: seq<BulkResult>, b: seq<BulkResult>)
    ensures Keys(a + b) == Keys(a) + Keys(b)
  {
  }

  /** One row per key, all saying the same. */
  function RowsFor(keys: seq<string>, status: string, reason: string): (rows: seq<BulkResult>)
    ensures Keys(rows) == keys
    ensures forall r | r in rows :: r.status == status && r.reason == reason && r.facility == ""
  {
    seq(|keys|, i requires 0 <= i < |keys| => BulkResult(keys[i], "", status, reason))
  }

  lemma RowsForAppend(keys: seq<string>, key: string, status: string, reason: string)
    ensures RowsFor(keys + [key], status, reason)
         == RowsFor(keys, status, reason) + [BulkResult(key, "", status, reason)]
  {
  }

  /**
   Counting: the n-th entry of a key is left out when fewer than n answers came for it.
  */
  function DroppedByCount(keys: seq<string>, answered: multiset<string>): seq<string> {
    if keys == [] then []
    else
      var n := |keys| - 1;
      DroppedByCount(keys[..n], answered) +
      if multiset(keys)[keys[n]] > answered[keys[n]] then [keys[n]] else []
  }

  /** Setting: an entry is left out when no answer came for its key at all. */
  function DroppedBySet(keys: seq<string>, answered: multiset<string>): seq<string> {
    if keys == [] then []
    else
      var n := |keys| - 1;
      DroppedBySet(keys[..n], answered) + if keys[n] !in answered then [keys[n]] else []
  }

  /** For each key, counting leaves out exactly max(0, sent - answered) entries. */
  lemma {:induction false} CountLeavesOutShortfall(keys: seq<string>, answered: multiset<string>)
    ensures multiset(DroppedByCount(keys, answered)) == multiset(keys) - answered
  {
    if keys != [] {
      var n := |keys| - 1;
      assert keys == keys[..n] + [keys[n]];
      CountLeavesOutShortfall(keys[..n], answered);
    }
  }

  lemma {:induction false} SetLeavesOutUnanswered(keys: seq<string>, answered: multiset<string>)
    ensures forall k :: multiset(DroppedBySet(keys, answered))[k]
                     == if k in answered then 0 else multiset(keys)[k]
  {
    if keys != [] {
      var n := |keys| - 1;
      assert keys == keys[..n] + [keys[n]];
      SetLeavesOutUnanswered(keys[..n], answered);
    }
  }

  /** A key that several entries share and only some of them got an answer for. */
  ghost predicate PartlyAnswered(keys: seq<string>, answered: multiset<string>) {
    exists k :: 0 < answered[k] < multiset(keys)[k]
  }

  /** Counting finds everything setting finds, and strictly more exactly when a shared key is partly answered. */
  lemma CountingFindsMore(keys: seq<string>, answered: multiset<string>)
    ensures multiset(DroppedBySet(keys, answered)) <= multiset(DroppedByCount(keys, answered))
    ensures |DroppedBySet(keys, answered)| <= |DroppedByCount(keys, answered)|
    ensures |DroppedBySet(keys, answered)| < |DroppedByCount(keys, answered)|
            <==> PartlyAnswered(keys, answered)
  {
    var bySet := multiset(DroppedBySet(keys, answered));
    var byCount := multiset(DroppedByCount(keys, answered));
    CountLeavesOutShortfall(keys, answered);
    SetLeavesOutUnanswered(keys, answered);
    assert byCount == bySet + (byCount - bySet);
    assert |DroppedByCount(keys, answered)| == |DroppedBySet(keys, answered)| + |byCount - bySet|;
    if PartlyAnswered(keys, answered) {
      var k :| 0 < answered[k] < multiset(keys)[k];
      assert k in byCount - bySet;
    } else {
      forall k
        ensures (byCount - bySet)[k] == 0
      {
        assert !(0 < answered[k] < multiset(keys)[k]);
      }
      assert byCount - bySet == multiset{};
    }
  }
}
