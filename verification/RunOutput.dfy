/**
 What the runner keeps and forwards of a run's output: a buffer that keeps the first
 bytes and never reserves more than it may keep, and a writer that holds the newest
 bytes between flushes and owns up to what the UI missed.
*/
module RunOutput {
  import opened Wrappers

  newtype byte = b: int | 0 <= b < 256

  function Min(x: int, y: int): int {
    if x <= y then x else y
  }

  function Max(x: int, y: int): int {
    if x >= y then x else y
  }

  function Concat(parts: seq<seq<byte>>): seq<byte> {
    if parts == [] then [] else Concat(parts[..|parts| - 1]) + parts[|parts| - 1]
  }

  // ---------------------------------------------------------------------------
  // cappedBuffer
  // ---------------------------------------------------------------------------

  /** A buffer as a value; copied is every byte moved so far by growing it. */
  datatype Capped = Capped(kept: seq<byte>, capacity: nat, dropped: bool, copied: nat)

  const EMPTY := Capped([], 0, false, 0)

  function GrownCap(limit: nat, capacity: nat, need: nat): nat {
    if capacity > limit / 2 then limit else Min(Max(2 * capacity, need), limit)
  }

  function Put(limit: nat, b: Capped, p: seq<byte>): Capped
    requires |b.kept| <= limit
  {
    var kept := p[..Min(limit - |b.kept|, |p|)];
    var need := |b.kept| + |kept|;
    var grows := need > b.capacity;
    Capped(b.kept + kept,
           if grows then GrownCap(limit, b.capacity, need) else b.capacity,
           b.dropped || |kept| < |p|,
           b.copied + if grows then |b.kept| else 0)
  }

  class CappedBuffer {
    const limit: nat
    var data: array<byte>
    var len: nat
    var dropped: bool
    ghost var copied: nat

    ghost predicate Valid()
      reads this, data
    {
      len <= data.Length && len <= limit
    }

    ghost function Value(): Capped
      requires Valid()
      reads this, data
    {
      Capped(data[..len], data.Length, dropped, copied)
    }

    constructor (limit: nat)
      ensures Valid() && fresh(data) && this.limit == limit && Value() == EMPTY
    {
      this.limit := limit;
      data := new byte[0];
      len := 0;
      dropped := false;
      copied := 0;
    }

    method Grow(capacity: nat)
      requires Valid() && len <= capacity
      modifies `data, `copied
      ensures Valid() && fresh(data)
      ensures Value() == old(Value()).(capacity := capacity, copied := old(Value().copied) + len)
    {
      var buf := data;
      var grown := new byte[capacity];
      for i := 0 to len
        invariant data == buf && unchanged(`copied) && grown[..i] == buf[..i]
      {
        grown[i] := buf[i];
      }
      copied := copied + len;
      data := grown;
    }

    /** Appending within the capacity, which never reallocates. */
    method Append(kept: seq<byte>)
      requires Valid() && len + |kept| <= data.Length && len + |kept| <= limit
      modifies `len, data
      ensures Valid() && Value() == old(Value()).(kept := old(Value().kept) + kept)
    {
      for i := 0 to |kept|
        invariant unchanged(`len) && data[..len] == old(data[..len])
        invariant data[len..len + i] == kept[..i]
      {
        data[len + i] := kept[i];
      }
      assert data[..len + |kept|] == data[..len] + data[len..len + |kept|];
      len := len + |kept|;
    }

    method Write(p: seq<byte>) returns (n: nat)
      requires Valid() && Within(limit, Value())
      modifies this, data
      ensures Valid() && (data == old(data) || fresh(data))
      ensures Value() == Put(limit, old(Value()), p)
      ensures n == |p|
    {
      PutStaysWithin(limit, Value(), p);
      var room := Max(limit - len, 0);
      var kept := p[..Min(room, |p|)];
      if |kept| < |p| {
        dropped := true;
      }
      var need := len + |kept|;
      if need > data.Length {
        Grow(GrownCap(limit, data.Length, need));
      }
      Append(kept);
      n := |p|;
    }
  }

  /** What a buffer keeps at all times: room for what it holds, and never more than the limit. */
  ghost predicate Within(limit: nat, b: Capped) {
    && |b.kept| <= b.capacity <= limit
    && b.capacity <= 2 * |b.kept|
    && b.copied <= 2 * b.capacity
    && (b.capacity < limit ==> b.copied <= b.capacity)
  }

  lemma PutStaysWithin(limit: nat, b: Capped, p: seq<byte>)
    requires Within(limit, b)
    ensures Within(limit, Put(limit, b, p))
  {
  }

  function PutAll(limit: nat, writes: seq<seq<byte>>): (b: Capped)
    ensures Within(limit, b)
  {
    if writes == [] then EMPTY
    else
      var b := PutAll(limit, writes[..|writes| - 1]);
      PutStaysWithin(limit, b, writes[|writes| - 1]);
      Put(limit, b, writes[|writes| - 1])
  }

  /**
   After any writes: the first `limit` bytes, a truthful dropped flag, a reservation
   within the limit and within twice what is held, and all growth together no dearer than
   copying it twice.
  */
  lemma {:induction false} KeepsFirstBytes(limit: nat, writes: seq<seq<byte>>)
    ensures var b := PutAll(limit, writes);
      var all := Concat(writes);
      && b.kept == all[..Min(limit, |all|)]
      && (b.dropped <==> |all| > limit)
      && b.capacity <= limit && b.capacity <= 2 * |b.kept|
      && b.copied <= 2 * b.capacity
  {
    if writes != [] {
      var n := |writes| - 1;
      KeepsFirstBytes(limit, writes[..n]);
      PutKeepsFirst(limit, PutAll(limit, writes[..n]), Concat(writes[..n]), writes[n]);
    }
  }

  lemma PutKeepsFirst(limit: nat, b: Capped, all: seq<byte>, p: seq<byte>)
    requires b.kept == all[..Min(limit, |all|)] && (b.dropped <==> |all| > limit)
    ensures var c := Put(limit, b, p);
      c.kept == (all + p)[..Min(limit, |all + p|)] && (c.dropped <==> |all + p| > limit)
  {
  }

  // ---------------------------------------------------------------------------
  // streamWriter
  // ---------------------------------------------------------------------------

  datatype Chunk = Chunk(bytes: seq<byte>, dropped: bool)

  /** The two fields a writer changes. */
  datatype Pending = Pending(bytes: seq<byte>, dropped: bool)

  function Push(limit: nat, w: Pending, p: seq<byte>): Pending {
    var all := w.bytes + p;
    if |all| > limit then Pending(all[|all| - limit..], true) else Pending(all, w.dropped)
  }

  function Taken(w: Pending): Option<Chunk> {
    if w.bytes == [] && !w.dropped then None else Some(Chunk(w.bytes, w.dropped))
  }

  class StreamWriter {
    const to: CappedBuffer
    const limit: nat
    var pending: seq<byte>
    var dropped: bool

    ghost function State(): Pending
      reads this
    {
      Pending(pending, dropped)
    }

    constructor (to: CappedBuffer, limit: nat)
      ensures this.to == to && this.limit == limit && State() == Pending([], false)
    {
      this.to := to;
      this.limit := limit;
      pending, dropped := [], false;
    }

    method Write(p: seq<byte>) returns (n: nat)
      requires to.Valid() && Within(to.limit, to.Value())
      modifies this, to, to.data
      ensures to.Valid() && (to.data == old(to.data) || fresh(to.data))
      ensures to.Value() == Put(to.limit, old(to.Value()), p)
      ensures State() == Push(limit, old(State()), p)
      ensures n == |p|
    {
      n := to.Write(p);
      pending := pending + p;
      if |pending| > limit {
        pending := pending[|pending| - limit..];
        dropped := true;
      }
    }

    method Take() returns (c: Option<Chunk>)
      modifies this
      ensures c == Taken(old(State())) && State() == Pending([], false)
    {
      if |pending| == 0 && !dropped {
        return None;
      }
      c := Some(Chunk(pending, dropped));
      pending, dropped := [], false;
    }

    method Drop()
      modifies this
      ensures State() == old(State()).(dropped := true)
    {
      dropped := true;
    }
  }

  /** One writer's turn of a flush: the chunk is sent when the queue has room, and owned up to when not. */
  method Flush(w: StreamWriter, room: bool) returns (sent: Option<Chunk>)
    modifies w
    ensures sent == if room then Taken(old(w.State())) else None
    ensures w.State() == if room || old(w.State()) == Pending([], false) then Pending([], false) else Pending([], true)
  {
    var c := w.Take();
    if c.None? {
      return None;
    }
    if room {
      return c;
    }
    w.Drop();
    sent := None;
  }

  // --- a stream over any interleaving of writes and flushes ---

  /** A chunk, with the interval of the whole output it was. */
  datatype Piece = Piece(start: nat, end: nat, chunk: Chunk)

  /** The writer, the chunk a flush has taken and not yet placed, and what the UI was given. */
  datatype Stream = Stream(written: seq<byte>, writer: Pending, inFlight: Option<Piece>, delivered: seq<Piece>)

  const START := Stream([], Pending([], false), None, [])

  /** A flush takes, and then either places or gives up; a write can come in between. */
  datatype Event = Wrote(p: seq<byte>) | Took | Placed | GaveUp

  function Step(limit: nat, s: Stream, e: Event): Stream {
    match e
    case Wrote(p) => s.(written := s.written + p, writer := Push(limit, s.writer, p))
    case Took =>
      if s.inFlight.Some? || Taken(s.writer).None? then s
      else
        var end := |s.written|;
        var start := Max(0, end - |s.writer.bytes|);
        s.(inFlight := Some(Piece(start, end, Taken(s.writer).value)), writer := Pending([], false))
    case Placed =>
      if s.inFlight.None? then s
      else s.(inFlight := None, delivered := s.delivered + [s.inFlight.value])
    case GaveUp =>
      if s.inFlight.None? then s
      else s.(inFlight := None, writer := s.writer.(dropped := true))
  }

  function Stepped(limit: nat, events: seq<Event>): Stream {
    if events == [] then START
    else Step(limit, Stepped(limit, events[..|events| - 1]), events[|events| - 1])
  }

  function EndOf(pieces: seq<Piece>): nat {
    if pieces == [] then 0 else pieces[|pieces| - 1].end
  }

  /** p is the bytes of its interval, follows `after`, and is flagged exactly when it does not start there. */
  ghost predicate Follows(limit: nat, written: seq<byte>, after: nat, p: Piece) {
    && after <= p.start <= p.end <= |written|
    && p.chunk.bytes == written[p.start..p.end]
    && |p.chunk.bytes| <= limit
    && (p.chunk.dropped <==> p.start != after)
    && (p.chunk.bytes != [] || p.chunk.dropped)
  }

  ghost predicate InTurn(limit: nat, written: seq<byte>, pieces: seq<Piece>) {
    forall i | 0 <= i < |pieces| :: Follows(limit, written, EndOf(pieces[..i]), pieces[i])
  }

  ghost predicate Sound(limit: nat, s: Stream) {
    var base := |s.written| - |s.writer.bytes|;
    var placed := EndOf(s.delivered);
    var last := if s.inFlight.Some? then s.inFlight.value.end else placed;
    && InTurn(limit, s.written, s.delivered)
    && (s.inFlight.Some? ==> Follows(limit, s.written, placed, s.inFlight.value))
    && 0 <= last <= base && |s.writer.bytes| <= limit
    && s.writer.bytes == s.written[base..]
    && (s.writer.dropped <==> base != last)
  }

  lemma FollowsStays(limit: nat, written: seq<byte>, more: seq<byte>, after: nat, p: Piece)
    requires Follows(limit, written, after, p)
    ensures Follows(limit, written + more, after, p)
  {
  }

  lemma WriteKeepsSound(limit: nat, s: Stream, p: seq<byte>)
    requires Sound(limit, s)
    ensures Sound(limit, Step(limit, s, Wrote(p)))
  {
    forall i | 0 <= i < |s.delivered|
      ensures Follows(limit, s.written + p, EndOf(s.delivered[..i]), s.delivered[i])
    {
      FollowsStays(limit, s.written, p, EndOf(s.delivered[..i]), s.delivered[i]);
    }
    if s.inFlight.Some? {
      FollowsStays(limit, s.written, p, EndOf(s.delivered), s.inFlight.value);
    }
    PushKeepsTail(limit, s.written, s.writer, p);
  }

  /** The pending bytes are always the newest ones, and a push that cuts them says so. */
  lemma PushKeepsTail(limit: nat, written: seq<byte>, w: Pending, p: seq<byte>)
    requires |w.bytes| <= |written| && w.bytes == written[|written| - |w.bytes|..] && |w.bytes| <= limit
    ensures var v := Push(limit, w, p);
      var base, base' := |written| - |w.bytes|, |written + p| - |v.bytes|;
      && |v.bytes| <= limit && base <= base' && v.bytes == (written + p)[base'..]
      && (v.dropped <==> w.dropped || base < base')
  {
  }

  lemma PlaceKeepsSound(limit: nat, s: Stream)
    requires Sound(limit, s) && s.inFlight.Some?
    ensures Sound(limit, Step(limit, s, Placed))
  {
  }

  lemma StepKeepsSound(limit: nat, s: Stream, e: Event)
    requires Sound(limit, s)
    ensures Sound(limit, Step(limit, s, e))
  {
    match e
    case Wrote(p) => WriteKeepsSound(limit, s, p);
    case Took =>
    case Placed =>
      if s.inFlight.Some? {
        PlaceKeepsSound(limit, s);
      }
    case GaveUp =>
  }

  /**
   Whatever the interleaving, the chunks delivered are disjoint intervals of the output in
   increasing order, none longer than the limit, and a chunk says bytes were dropped
   exactly when it does not start where the one delivered before it ended.
  */
  lemma {:induction false} DeliveredInTurn(limit: nat, events: seq<Event>)
    ensures var s := Stepped(limit, events);
      Sound(limit, s) && InTurn(limit, s.written, s.delivered)
  {
    if events != [] {
      DeliveredInTurn(limit, events[..|events| - 1]);
      StepKeepsSound(limit, Stepped(limit, events[..|events| - 1]), events[|events| - 1]);
    }
  }

  function Bytes(pieces: seq<Piece>): seq<byte> {
    if pieces == [] then [] else Bytes(pieces[..|pieces| - 1]) + pieces[|pieces| - 1].chunk.bytes
  }

  lemma {:induction false} UnflaggedIsWhole(limit: nat, written: seq<byte>, pieces: seq<Piece>)
    requires InTurn(limit, written, pieces)
    requires forall i | 0 <= i < |pieces| :: !pieces[i].chunk.dropped
    ensures EndOf(pieces) <= |written| && Bytes(pieces) == written[..EndOf(pieces)]
  {
    if pieces != [] {
      var n := |pieces| - 1;
      var before := pieces[..n];
      forall i | 0 <= i < n ensures Follows(limit, written, EndOf(before[..i]), before[i]) {
        assert before[..i] == pieces[..i];
      }
      UnflaggedIsWhole(limit, written, before);
      assert Follows(limit, written, EndOf(before), pieces[n]);
      assert written[..pieces[n].end] == written[..EndOf(before)] + written[pieces[n].start..pieces[n].end];
    }
  }

  /** Once the last flush got through, a pane that was never told of a drop shows everything written. */
  lemma NoFlagMeansNothingLost(limit: nat, events: seq<Event>)
    requires var s := Stepped(limit, events);
      && s.inFlight.None? && s.writer == Pending([], false)
      && forall i | 0 <= i < |s.delivered| :: !s.delivered[i].chunk.dropped
    ensures var s := Stepped(limit, events);
      Bytes(s.delivered) == s.written
  {
    var s := Stepped(limit, events);
    DeliveredInTurn(limit, events);
    UnflaggedIsWhole(limit, s.written, s.delivered);
    assert s.written[..|s.written|] == s.written;
  }

  // --- the newest bytes ---

  /** How much had been written when a flush last took what there was. */
  function LastTake(limit: nat, events: seq<Event>): nat {
    if events == [] then 0
    else
      var before := events[..|events| - 1];
      if events[|events| - 1].Took? && Stepped(limit, before).inFlight.None? then |Stepped(limit, before).written|
      else LastTake(limit, before)
  }

  /** What waits for the next flush is everything written since the last one, or its newest `limit` bytes. */
  lemma {:induction false} HoldsTheNewest(limit: nat, events: seq<Event>)
    ensures var s := Stepped(limit, events);
      var since := LastTake(limit, events);
      since <= |s.written| && s.writer.bytes == s.written[Max(since, |s.written| - limit)..]
  {
    if events != [] {
      var before := events[..|events| - 1];
      HoldsTheNewest(limit, before);
      if events[|events| - 1].Wrote? {
        PushHoldsNewest(limit, Stepped(limit, before).written, Stepped(limit, before).writer,
          LastTake(limit, before), events[|events| - 1].p);
      }
    }
  }

  lemma PushHoldsNewest(limit: nat, written: seq<byte>, w: Pending, since: nat, p: seq<byte>)
    requires since <= |written| && w.bytes == written[Max(since, |written| - limit)..]
    ensures Push(limit, w, p).bytes == (written + p)[Max(since, |written + p| - limit)..]
  {
    assert w.bytes + p == (written + p)[Max(since, |written| - limit)..];
  }
}
