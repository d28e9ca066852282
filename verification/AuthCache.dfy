/**
 The caching token source. Two promises: what the credential store says about a token is
 never more than the truth, wherever a save was cut short; and sign-ins are spaced out
 by a token's life, however many callers there are.

 Times are nanoseconds. The mutex makes each call one step.
*/
module AuthCache {
  import opened Wrappers

  const SECOND: int := 1_000_000_000
  const LEEWAY: int := 5 * 60 * SECOND

  /** The zero time.Time, in nanoseconds before 1970. */
  const ZERO_TIME: int := -62_135_596_800 * SECOND

  datatype Token = Token(id: string, refresh: string, expiresAt: int)

  const ZERO_TOKEN := Token("", "", ZERO_TIME)

  predicate Fresh(t: Token, now: int) {
    t.id != "" && now + LEEWAY < t.expiresAt
  }

  datatype Kind = RefreshToken | IdToken | IdTokenExp

  /** A stored secret: a string, or a time written in whole seconds. */
  datatype Secret = Text(s: string) | Stamp(seconds: int)

  type Entries = map<Kind, Secret>

  /** What one write to the store came to. A crash before the write counts as Broken. */
  datatype SetOutcome = Written | ReadOnly | Broken

  // ---------------------------------------------------------------------------
  // Saving and loading.
  // ---------------------------------------------------------------------------

  /** The writes of one save, in their order: the expiry last. */
  function Writes(t: Token): seq<(Kind, Secret)> {
    [(RefreshToken, Text(t.refresh)), (IdToken, Text(t.id)), (IdTokenExp, Stamp(t.expiresAt / SECOND))]
  }

  /** The store once the first n of the writes have landed. */
  function Landed(e: Entries, writes: seq<(Kind, Secret)>, n: nat): Entries
    requires n <= |writes|
  {
    if n == 0 then e else Landed(e, writes, n - 1)[writes[n - 1].0 := writes[n - 1].1]
  }

  /** How many writes land before one does not. */
  function Landing(plan: seq<SetOutcome>): (n: nat)
    ensures n <= |plan|
    ensures forall i | 0 <= i < n :: plan[i].Written?
    ensures n < |plan| ==> !plan[n].Written?
  {
    if plan == [] || !plan[0].Written? then 0 else 1 + Landing(plan[1..])
  }

  /** A read-only store is not an error; anything else that stops a write is. */
  predicate Saved(plan: seq<SetOutcome>) {
    Landing(plan) == |plan| || plan[Landing(plan)].ReadOnly?
  }

  class SecretStore {
    var entries: Entries

    method Set(kind: Kind, value: Secret, outcome: SetOutcome)
      modifies this
      ensures entries == if outcome.Written? then old(entries)[kind := value] else old(entries)
    {
      if outcome.Written? {
        entries := entries[kind := value];
      }
    }

    method SaveToken(t: Token, plan: seq<SetOutcome>) returns (ok: bool)
      requires |plan| == 3
      modifies this
      ensures entries == Landed(old(entries), Writes(t), Landing(plan))
      ensures ok <==> Saved(plan)
    {
      var writes := Writes(t);
      for i := 0 to 3
        invariant forall j | 0 <= j < i :: plan[j].Written?
        invariant entries == Landed(old(entries), writes, i)
      {
        Set(writes[i].0, writes[i].1, plan[i]);
        if plan[i].ReadOnly? {
          return true;
        }
        if plan[i].Broken? {
          return false;
        }
      }
      ok := true;
    }
  }

  function TextAt(e: Entries, readable: set<Kind>, kind: Kind): string {
    if kind in e && kind in readable && e[kind].Text? then e[kind].s else ""
  }

  /** A missing, unreadable or unparseable entry costs freshness and nothing else. */
  function LoadToken(e: Entries, readable: set<Kind>): Token {
    Token(TextAt(e, readable, IdToken), TextAt(e, readable, RefreshToken),
          if IdTokenExp in e && IdTokenExp in readable && e[IdTokenExp].Stamp?
          then e[IdTokenExp].seconds * SECOND else ZERO_TIME)
  }

  /** A save succeeds exactly when no write fails, or a read-only store stops it first. */
  lemma SavedExactly(plan: seq<SetOutcome>)
    ensures Saved(plan) <==>
      forall i | 0 <= i < |plan| && plan[i].Broken? :: exists j :: 0 <= j < i && plan[j].ReadOnly?
  {
    var n := Landing(plan);
    if n < |plan| && plan[n].ReadOnly? {
      forall i | 0 <= i < |plan| && plan[i].Broken? ensures exists j :: 0 <= j < i && plan[j].ReadOnly? {
        assert n < i;
      }
    }
  }

  /** What a complete save wrote is what a load that can read it gets back, the expiry to the second. */
  lemma LoadsWhatWasSaved(e: Entries, t: Token)
    ensures LoadToken(Landed(e, Writes(t), 3), {RefreshToken, IdToken, IdTokenExp})
         == Token(t.id, t.refresh, t.expiresAt / SECOND * SECOND)
  {
    LandedSteps(e, t);
  }

  /** With nothing to be read there is no token: no id, no refresh token, and nothing fresh. */
  lemma NothingReadIsNoToken(e: Entries, now: int)
    ensures LoadToken(e, {}).id == "" && LoadToken(e, {}).refresh == ""
    ensures !Fresh(LoadToken(e, {}), now)
    ensures forall t: Token :: Fresh(t, now) <==> t.id != "" && t.expiresAt - now > 300_000_000_000
  {
  }

  // --- the store never promises more than the token ---

  /** The expiry on record, if there is one, does not outlive the id token on record. */
  ghost predicate Truthful(e: Entries, expiry: string -> int) {
    IdToken in e && e[IdToken].Text? && IdTokenExp in e && e[IdTokenExp].Stamp? ==>
      e[IdTokenExp].seconds * SECOND <= expiry(e[IdToken].s)
  }

  /** The store after one writer's saves, each cut off after so many of its writes. */
  function SaveAll(e: Entries, minted: seq<Token>, landed: seq<nat>): Entries
    requires |landed| == |minted| && forall i | 0 <= i < |landed| :: landed[i] <= 3
  {
    if minted == [] then e
    else
      var n := |minted| - 1;
      Landed(SaveAll(e, minted[..n], landed[..n]), Writes(minted[n]), landed[n])
  }

  ghost predicate Interruptions(minted: seq<Token>, landed: seq<nat>) {
    |landed| == |minted| && forall i | 0 <= i < |landed| :: landed[i] <= 3
  }

  /** Each token's own expiry is the one the issuer holds it to. */
  ghost predicate Honest(minted: seq<Token>, expiry: string -> int) {
    forall i | 0 <= i < |minted| :: minted[i].expiresAt == expiry(minted[i].id)
  }

  /** No token expires, to the second, after one minted later. */
  ghost predicate SecondsInOrder(minted: seq<Token>) {
    forall i, j | 0 <= i < j < |minted| :: minted[i].expiresAt / SECOND * SECOND <= minted[j].expiresAt
  }

  /** The id on record is that of minted[j], and the expiry that of minted[i]. */
  ghost predicate Recorded(e: Entries, minted: seq<Token>, i: int, j: int) {
    && -1 <= i <= j < |minted|
    && (if j < 0 then IdToken !in e else IdToken in e && e[IdToken] == Text(minted[j].id))
    && (if i < 0 then IdTokenExp !in e
        else IdTokenExp in e && e[IdTokenExp] == Stamp(minted[i].expiresAt / SECOND))
  }

  /** k is the last save of which at least n writes landed, or -1. */
  ghost predicate LastToLand(landed: seq<nat>, n: nat, k: int) {
    && -1 <= k < |landed|
    && (k >= 0 ==> landed[k] >= n)
    && forall m | k < m < |landed| :: landed[m] < n
  }

  lemma {:induction false} SavesRecord(minted: seq<Token>, landed: seq<nat>) returns (i: int, j: int)
    requires Interruptions(minted, landed)
    ensures Recorded(SaveAll(map[], minted, landed), minted, i, j)
    ensures LastToLand(landed, 3, i) && LastToLand(landed, 2, j)
  {
    if minted == [] {
      i, j := -1, -1;
    } else {
      var n := |minted| - 1;
      i, j := SavesRecord(minted[..n], landed[..n]);
      LandedSteps(SaveAll(map[], minted[..n], landed[..n]), minted[n]);
      if landed[n] >= 2 {
        j := n;
      }
      if landed[n] == 3 {
        i := n;
      }
    }
  }

  lemma LandedSteps(e: Entries, t: Token)
    ensures Landed(e, Writes(t), 1) == e[RefreshToken := Text(t.refresh)]
    ensures Landed(e, Writes(t), 2) == e[RefreshToken := Text(t.refresh)][IdToken := Text(t.id)]
    ensures Landed(e, Writes(t), 3)
         == e[RefreshToken := Text(t.refresh)][IdToken := Text(t.id)][IdTokenExp := Stamp(t.expiresAt / SECOND)]
  {
  }

  /** Save i whole, then save j up to its id: the expiry of i now vouches for the id of j. */
  lemma WorstInterruption(minted: seq<Token>, i: nat, j: nat) returns (landed: seq<nat>)
    requires i < j < |minted|
    ensures Interruptions(minted, landed)
    ensures Recorded(SaveAll(map[], minted, landed), minted, i, j)
  {
    landed := seq(|minted|, k => if k == i then 3 else if k == j then 2 else 0);
    var i', j' := SavesRecord(minted, landed);
    assert landed[i] == 3 && landed[j] == 2;
    assert i' >= i && j' >= j;
  }

  /**
   Saves cut off anywhere leave a truthful store exactly when no token expires after one
   minted later. Writing the expiry last is what makes this the whole condition.
  */
  lemma TruthfulExactlyInOrder(minted: seq<Token>, expiry: string -> int)
    requires Honest(minted, expiry)
    ensures (forall landed | Interruptions(minted, landed) :: Truthful(SaveAll(map[], minted, landed), expiry))
            <==> SecondsInOrder(minted)
  {
    if SecondsInOrder(minted) {
      forall landed | Interruptions(minted, landed)
        ensures Truthful(SaveAll(map[], minted, landed), expiry)
      {
        var i, j := SavesRecord(minted, landed);
      }
    } else {
      var i, j :| 0 <= i < j < |minted| && minted[i].expiresAt / SECOND * SECOND > minted[j].expiresAt;
      var landed := WorstInterruption(minted, i, j);
      assert !Truthful(SaveAll(map[], minted, landed), expiry);
    }
  }

  ghost predicate ExpiriesGrow(minted: seq<Token>) {
    forall i, j | 0 <= i < j < |minted| :: minted[i].expiresAt <= minted[j].expiresAt
  }

  /** With expiries that never go backwards, a loaded token judged fresh is fresh. */
  lemma LoadedFreshIsFresh(minted: seq<Token>, landed: seq<nat>, expiry: string -> int, readable: set<Kind>, now: int)
    requires Honest(minted, expiry) && ExpiriesGrow(minted) && Interruptions(minted, landed)
    ensures var t := LoadToken(SaveAll(map[], minted, landed), readable);
      ZERO_TIME <= now && Fresh(t, now) ==> now + LEEWAY < expiry(t.id)
  {
    TruthfulExactlyInOrder(minted, expiry);
    assert Truthful(SaveAll(map[], minted, landed), expiry);
  }

  // ---------------------------------------------------------------------------
  // The source.
  // ---------------------------------------------------------------------------

  /** What the calls see and change: the cached token, whether it was loaded, and the store. */
  datatype State = State(token: Token, loaded: bool, entries: Entries)

  /**
   One call: when it looked at the clock, what a mint would give and when that mint would
   finish, which entries can be read, and how the save would go.
  */
  datatype Call =
    | GetToken(now: int, minted: Option<Token>, mintedAt: int, readable: set<Kind>, plan: seq<SetOutcome>)
    | Renew(now: int, minted: Option<Token>, mintedAt: int, readable: set<Kind>, plan: seq<SetOutcome>)

  function Loaded(s: State, readable: set<Kind>): State {
    if s.loaded then s else s.(token := LoadToken(s.entries, readable), loaded := true)
  }

  function Renewed(s: State, c: Call): State
    requires |c.plan| == 3
  {
    if c.minted.None? then s
    else s.(token := c.minted.value, entries := Landed(s.entries, Writes(c.minted.value), Landing(c.plan)))
  }

  /** Does the call ask for a new token? */
  predicate Mints(s: State, c: Call) {
    c.Renew? || !Fresh(Loaded(s, c.readable).token, c.now)
  }

  function After(s: State, c: Call): State
    requires |c.plan| == 3
  {
    if Mints(s, c) then Renewed(Loaded(s, c.readable), c) else Loaded(s, c.readable)
  }

  class CachingTokenSource {
    const store: SecretStore
    var token: Token
    var loaded: bool

    ghost function Snapshot(): State
      reads this, store
    {
      State(token, loaded, store.entries)
    }

    constructor (s: SecretStore)
      ensures store == s && Snapshot() == State(ZERO_TOKEN, false, s.entries)
    {
      store := s;
      token := ZERO_TOKEN;
      loaded := false;
    }

    method EnsureLoaded(readable: set<Kind>)
      modifies this
      ensures Snapshot() == Loaded(old(Snapshot()), readable)
    {
      if !loaded {
        token := LoadToken(store.entries, readable);
        loaded := true;
      }
    }

    /** A save that fails is reported, but the new token stays in memory. */
    method RenewWith(c: Call) returns (r: Option<Token>)
      requires |c.plan| == 3
      modifies this, store
      ensures Snapshot() == Renewed(old(Snapshot()), c)
      ensures r == if c.minted.Some? && Saved(c.plan) then c.minted else None
    {
      if c.minted.None? {
        return None;
      }
      token := c.minted.value;
      var ok := store.SaveToken(token, c.plan);
      if !ok {
        return None;
      }
      r := Some(token);
    }

    /** An id handed out is fresh by this source's clock, or has just been minted. */
    method GetToken(c: Call) returns (id: Option<string>)
      requires c.GetToken? && |c.plan| == 3
      modifies this, store
      ensures Snapshot() == After(old(Snapshot()), c)
      ensures id.Some? ==> id.value == token.id && (Fresh(token, c.now) || Some(token) == c.minted)
      ensures id.Some? <==> !Mints(old(Snapshot()), c) || (c.minted.Some? && Saved(c.plan))
    {
      EnsureLoaded(c.readable);
      if Fresh(token, c.now) {
        return Some(token.id);
      }
      var t := RenewWith(c);
      if t.None? {
        return None;
      }
      id := Some(t.value.id);
    }

    method RenewNow(c: Call) returns (t: Option<Token>)
      requires c.Renew? && |c.plan| == 3
      modifies this, store
      ensures Snapshot() == After(old(Snapshot()), c)
      ensures t == if c.minted.Some? && Saved(c.plan) then c.minted else None
    {
      EnsureLoaded(c.readable);
      t := RenewWith(c);
    }
  }

  /** A second session of the same user: what the first one minted and saved is used as long as it is fresh. */
  lemma NextSessionSignsInOnlyWhenStale(s: State, first: Call, next: Call)
    requires |first.plan| == 3 && |next.plan| == 3
    requires Mints(s, first) && first.minted.Some? && forall i | 0 <= i < 3 :: first.plan[i].Written?
    requires next.GetToken? && next.readable == {RefreshToken, IdToken, IdTokenExp}
    ensures var minted := first.minted.value;
      var later := State(ZERO_TOKEN, false, After(s, first).entries);
      var usable := minted.id != "" && minted.expiresAt / SECOND * SECOND - next.now > 300_000_000_000;
      && (Mints(later, next) <==> !usable)
      && (usable ==> After(later, next).token.id == minted.id)
      && After(s, first).token == minted
  {
    LoadsWhatWasSaved(s.entries, first.minted.value);
  }

  // --- sign-ins are spaced out ---

  /** How many of the GetToken calls mint successfully. */
  function SignIns(s: State, calls: seq<Call>): nat
    requires forall i | 0 <= i < |calls| :: |calls[i].plan| == 3
    decreases |calls|
  {
    if calls == [] then 0
    else
      (if calls[0].GetToken? && Mints(s, calls[0]) && calls[0].minted.Some? then 1 else 0)
      + SignIns(After(s, calls[0]), calls[1..])
  }

  /** A clock that never runs backwards, and mints that give a usable token a life of at least `life`. */
  ghost predicate Orderly(calls: seq<Call>, life: int) {
    && (forall i | 0 <= i < |calls| :: |calls[i].plan| == 3 && calls[i].now <= calls[i].mintedAt)
    && (forall i, j | 0 <= i < j < |calls| :: calls[i].mintedAt <= calls[j].now)
    && (forall i | 0 <= i < |calls| && calls[i].minted.Some? ::
          calls[i].minted.value.id != "" && calls[i].minted.value.expiresAt >= calls[i].mintedAt + life)
  }

  lemma OrderlyTail(calls: seq<Call>, life: int)
    requires Orderly(calls, life) && calls != []
    ensures Orderly(calls[1..], life)
  {
  }

  /** The source holds a token minted at `at`, so the next sign-in is at least life - LEEWAY away. */
  lemma {:induction false} SignInsSince(s: State, calls: seq<Call>, life: int, at: int)
    requires Orderly(calls, life) && life > LEEWAY
    requires s.loaded && s.token.id != "" && s.token.expiresAt >= at + life
    requires calls != [] ==> at <= calls[0].now
    ensures calls != [] ==> SignIns(s, calls) * (life - LEEWAY) <= calls[|calls| - 1].now - at
    decreases |calls|
  {
    if calls != [] {
      var c := calls[0];
      var tail := calls[1..];
      OrderlyTail(calls, life);
      var minted := Mints(s, c) && c.minted.Some?;
      var at' := if minted then c.mintedAt else at;
      SignInsSince(After(s, c), tail, life, at');
      var rest := SignIns(After(s, c), tail);
      var last := calls[|calls| - 1].now;
      assert tail != [] ==> tail[|tail| - 1] == calls[|calls| - 1];
      if c.GetToken? && minted {
        if tail == [] {
          assert rest == 0;
        } else {
          OneGapMore(rest, life - LEEWAY, last, at, c.now, at');
        }
      } else if tail == [] {
        assert rest == 0 && SignIns(s, calls) == 0;
      }
    }
  }

  lemma OneGapMore(rest: nat, gap: int, last: int, at: int, now: int, mintedAt: int)
    requires rest * gap <= last - mintedAt && now - at >= gap && now <= mintedAt
    ensures (1 + rest) * gap <= last - at
  {
  }

  /**
   Whatever was stored, however many callers there are and whenever a user forces a
   renewal in between: k sign-ins take at least (k - 1) times a token's usable life.
  */
  lemma {:induction false} SignInsAreSpaced(s: State, calls: seq<Call>, life: int)
    requires Orderly(calls, life) && life > LEEWAY && calls != []
    ensures (SignIns(s, calls) - 1) * (life - LEEWAY) <= calls[|calls| - 1].now - calls[0].now
    decreases |calls|
  {
    var c := calls[0];
    var tail := calls[1..];
    OrderlyTail(calls, life);
    assert calls[|calls| - 1].now >= c.now;
    if tail != [] {
      assert tail[|tail| - 1] == calls[|calls| - 1] && tail[0] == calls[1];
      assert c.now <= tail[0].now;
    }
    var k := SignIns(After(s, c), tail);
    var gap := life - LEEWAY;
    if Mints(s, c) && c.minted.Some? {
      SignInsSince(After(s, c), tail, life, c.mintedAt);
      assert tail == [] ==> k == 0;
      AtMostOneMore(SignIns(s, calls), k, gap);
    } else if tail != [] {
      SignInsAreSpaced(After(s, c), tail, life);
      assert SignIns(s, calls) == k;
    } else {
      AtMostOneMore(SignIns(s, calls), 0, gap);
    }
  }

  lemma AtMostOneMore(n: nat, k: nat, gap: int)
    requires n <= k + 1 && gap > 0
    ensures (n - 1) * gap <= k * gap
    ensures k == 0 ==> k * gap == 0
  {
    var d := k + 1 - n;
    assert (n - 1) * gap == k * gap - d * gap;
  }
}
