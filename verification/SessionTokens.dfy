/**
 The token sources of a session. One build per project at a time, shared by everyone who
 asks meanwhile; and after a forget, nothing built before it is handed to anyone new.

 A build runs without the lock, so a forget can happen in the middle of one. What each
 critical section does is one function here, and one method of the class that holds the
 table.
*/
module SessionTokens {

  datatype TokenKey = TokenKey(name: string, baseUrl: string, email: string, firebaseApiKey: string)

  /** A build, and how it ended: not yet, with a source, or with an error. */
  datatype Outcome = InFlight | Built | Errored

  datatype Build = Build(key: TokenKey, generation: nat, outcome: Outcome)

  /** A build is known by its place in `builds`, and so is the source it made. */
  datatype Table = Table(
    sources: map<TokenKey, nat>, building: map<TokenKey, nat>, generation: nat, builds: seq<Build>)

  /** What the first critical section tells a caller to do. */
  datatype Verdict = Use(build: nat) | Await(build: nat) | Make(build: nat)

  const NO_TOKENS := Table(map[], map[], 0, [])

  function VerdictFor(t: Table, key: TokenKey): Verdict {
    if key in t.sources then Use(t.sources[key])
    else if key in t.building then Await(t.building[key])
    else Make(|t.builds|)
  }

  function Entered(t: Table, key: TokenKey): Table {
    if VerdictFor(t, key).Make? then
      t.(building := t.building[key := |t.builds|], builds := t.builds + [Build(key, t.generation, InFlight)])
    else t
  }

  /** The second critical section: the build's place is given up, and its source kept if it is current. */
  function Finished(t: Table, b: nat, ok: bool): Table
    requires b < |t.builds|
  {
    var build := t.builds[b];
    Table(if ok && build.generation == t.generation then t.sources[build.key := b] else t.sources,
          if build.key in t.building && t.building[build.key] == b then t.building - {build.key} else t.building,
          t.generation,
          t.builds[b := build.(outcome := if ok then Built else Errored)])
  }

  function Forgotten(t: Table): Table {
    t.(sources := map[], building := map[], generation := t.generation + 1)
  }

  class SessionTokens {
    var sources: map<TokenKey, nat>
    var building: map<TokenKey, nat>
    var generation: nat
    var builds: seq<Build>

    ghost function Value(): Table
      reads this
    {
      Table(sources, building, generation, builds)
    }

    constructor ()
      ensures Value() == NO_TOKENS
    {
      sources, building, generation, builds := map[], map[], 0, [];
    }

    method Enter(key: TokenKey) returns (v: Verdict)
      modifies this
      ensures v == VerdictFor(old(Value()), key) && Value() == Entered(old(Value()), key)
    {
      if key in sources {
        return Use(sources[key]);
      }
      if key in building {
        return Await(building[key]);
      }
      var b := |builds|;
      builds := builds + [Build(key, generation, InFlight)];
      building := building[key := b];
      v := Make(b);
    }

    method Finish(b: nat, ok: bool)
      requires b < |builds|
      modifies this
      ensures Value() == Finished(old(Value()), b, ok)
    {
      var key := builds[b].key;
      if key in building && building[key] == b {
        building := building - {key};
      }
      if ok && builds[b].generation == generation {
        sources := sources[key := b];
      }
      builds := builds[b := builds[b].(outcome := if ok then Built else Errored)];
    }

    method Forget()
      modifies this
      ensures Value() == Forgotten(old(Value()))
    {
      generation := generation + 1;
      sources := map[];
      building := map[];
    }
  }

  // ---------------------------------------------------------------------------
  // Callers, and everything they can do in any order.
  // ---------------------------------------------------------------------------

  /** A call is building, waiting for a build, or has come back with that build's result. */
  datatype Stage = Building(build: nat) | Waiting(build: nat) | Returned(build: nat)

  /** `began` is the number of forgets before the call. */
  datatype Call = Call(key: TokenKey, began: nat, stage: Stage)

  datatype Session = Session(table: Table, calls: seq<Call>)

  datatype Event =
    | Enter(key: TokenKey)
    | BuildEnds(call: nat, ok: bool)
    | Wake(call: nat)
    | Forget

  const FIRST := Session(NO_TOKENS, [])

  function StageFor(v: Verdict): Stage {
    match v
    case Use(b) => Returned(b)
    case Await(b) => Waiting(b)
    case Make(b) => Building(b)
  }

  predicate Can(s: Session, e: Event) {
    match e
    case Enter(_) => true
    case Forget => true
    case BuildEnds(c, _) =>
      c < |s.calls| && s.calls[c].stage.Building? && s.calls[c].stage.build < |s.table.builds|
    case Wake(c) =>
      && c < |s.calls| && s.calls[c].stage.Waiting? && s.calls[c].stage.build < |s.table.builds|
      && !s.table.builds[s.calls[c].stage.build].outcome.InFlight?
  }

  function Next(s: Session, e: Event): Session
    requires Can(s, e)
  {
    match e
    case Enter(key) =>
      Session(Entered(s.table, key),
              s.calls + [Call(key, s.table.generation, StageFor(VerdictFor(s.table, key)))])
    case Forget => s.(table := Forgotten(s.table))
    case BuildEnds(c, ok) =>
      var b := s.calls[c].stage.build;
      Session(Finished(s.table, b, ok), s.calls[c := s.calls[c].(stage := Returned(b))])
    case Wake(c) => s.(calls := s.calls[c := s.calls[c].(stage := Returned(s.calls[c].stage.build))])
  }

  // --- what always holds ---

  /** What is kept, and what is being built, belongs to the current generation. */
  ghost predicate OnlyCurrent(t: Table) {
    && (forall k | k in t.sources ::
          t.sources[k] < |t.builds| && t.builds[t.sources[k]] == Build(k, t.generation, Built))
    && (forall k | k in t.building ::
          t.building[k] < |t.builds| && t.builds[t.building[k]] == Build(k, t.generation, InFlight))
    && (forall b | 0 <= b < |t.builds| :: t.builds[b].generation <= t.generation)
  }

  /** A current build that has not failed is where the next caller finds it. */
  ghost predicate IsFound(t: Table, b: nat)
    requires b < |t.builds|
  {
    t.builds[b].generation == t.generation ==>
      var key := t.builds[b].key;
      && (t.builds[b].outcome.InFlight? ==> key in t.building && t.building[key] == b)
      && (t.builds[b].outcome.Built? ==> key in t.sources && t.sources[key] == b)
  }

  ghost predicate TableSound(t: Table) {
    OnlyCurrent(t) && forall b | 0 <= b < |t.builds| :: IsFound(t, b)
  }

  /** Of two builds for one key in one generation, the earlier one failed before the later began. */
  ghost predicate SingleFlight(t: Table) {
    forall a, b | 0 <= a < b < |t.builds| &&
        t.builds[a].key == t.builds[b].key && t.builds[a].generation == t.builds[b].generation ::
      t.builds[a].outcome.Errored?
  }

  /** Every call is with a build for its own key, begun in the generation the call began in. */
  ghost predicate CallsSound(s: Session) {
    && (forall c | 0 <= c < |s.calls| ::
          var call := s.calls[c];
          && call.stage.build < |s.table.builds|
          && s.table.builds[call.stage.build].key == call.key
          && s.table.builds[call.stage.build].generation == call.began
          && (call.stage.Building? ==> s.table.builds[call.stage.build].outcome.InFlight?)
          && (call.stage.Returned? ==> !s.table.builds[call.stage.build].outcome.InFlight?))
    && (forall c, d | 0 <= c < d < |s.calls| && s.calls[c].stage.Building? && s.calls[d].stage.Building? ::
          s.calls[c].stage.build != s.calls[d].stage.build)
  }

  ghost predicate Inv(s: Session) {
    TableSound(s.table) && SingleFlight(s.table) && CallsSound(s)
  }

  lemma EnterKeepsTable(t: Table, key: TokenKey)
    requires TableSound(t)
    ensures TableSound(Entered(t, key))
  {
    var u := Entered(t, key);
    forall b | 0 <= b < |t.builds| ensures u.builds[b] == t.builds[b] && IsFound(u, b) {
      assert IsFound(t, b);
    }
  }

  lemma EnterKeepsSingle(t: Table, key: TokenKey)
    requires TableSound(t) && SingleFlight(t)
    ensures SingleFlight(Entered(t, key))
  {
    forall b | 0 <= b < |t.builds| && VerdictFor(t, key).Make? && t.builds[b].key == key &&
        t.builds[b].generation == t.generation
      ensures t.builds[b].outcome.Errored?
    {
      assert IsFound(t, b);
    }
  }

  lemma FinishKeepsTable(t: Table, b: nat, ok: bool)
    requires TableSound(t) && SingleFlight(t) && b < |t.builds| && t.builds[b].outcome.InFlight?
    ensures TableSound(Finished(t, b, ok))
  {
    assert IsFound(t, b);
    forall c | 0 <= c < |t.builds| ensures IsFound(Finished(t, b, ok), c) {
      assert IsFound(t, c);
      if c != b && t.builds[c].key == t.builds[b].key && t.builds[c].generation == t.builds[b].generation {
        OneOfTwoFailed(t, b, c);
      }
    }
    FinishKeepsCurrent(t, b, ok);
  }

  lemma OneOfTwoFailed(t: Table, a: nat, b: nat)
    requires SingleFlight(t) && a < |t.builds| && b < |t.builds| && a != b
    requires t.builds[a].key == t.builds[b].key && t.builds[a].generation == t.builds[b].generation
    ensures t.builds[a].outcome.Errored? || t.builds[b].outcome.Errored?
  {
  }

  lemma FinishKeepsCurrent(t: Table, b: nat, ok: bool)
    requires OnlyCurrent(t) && b < |t.builds| && t.builds[b].outcome.InFlight?
    ensures OnlyCurrent(Finished(t, b, ok))
  {
  }

  lemma FinishKeepsSingle(t: Table, b: nat, ok: bool)
    requires SingleFlight(t) && b < |t.builds| && t.builds[b].outcome.InFlight?
    ensures SingleFlight(Finished(t, b, ok))
  {
  }

  lemma EnterKeepsCalls(s: Session, key: TokenKey)
    requires TableSound(s.table) && CallsSound(s)
    ensures CallsSound(Next(s, Enter(key)))
  {
    var t := Next(s, Enter(key));
    forall c | 0 <= c < |s.calls| ensures t.calls[c] == s.calls[c] {
    }
    forall b | 0 <= b < |s.table.builds| ensures t.table.builds[b] == s.table.builds[b] {
    }
  }

  lemma FinishKeepsCalls(s: Session, c: nat, ok: bool)
    requires CallsSound(s) && Can(s, BuildEnds(c, ok))
    ensures CallsSound(Next(s, BuildEnds(c, ok)))
  {
    var b := s.calls[c].stage.build;
    var t := Next(s, BuildEnds(c, ok));
    forall d | 0 <= d < |t.calls| && d != c
      ensures t.calls[d] == s.calls[d] && (t.calls[d].stage.Building? ==> t.calls[d].stage.build != b)
    {
    }
  }

  lemma ForgetKeepsTable(t: Table)
    requires TableSound(t) && SingleFlight(t)
    ensures TableSound(Forgotten(t)) && SingleFlight(Forgotten(t))
  {
  }

  lemma StepKeepsInv(s: Session, e: Event)
    requires Inv(s) && Can(s, e)
    ensures Inv(Next(s, e))
  {
    match e
    case Enter(key) =>
      EnterKeepsTable(s.table, key);
      EnterKeepsSingle(s.table, key);
      EnterKeepsCalls(s, key);
    case Forget => ForgetKeepsTable(s.table);
    case BuildEnds(c, ok) =>
      FinishKeepsTable(s.table, s.calls[c].stage.build, ok);
      FinishKeepsSingle(s.table, s.calls[c].stage.build, ok);
      FinishKeepsCalls(s, c, ok);
    case Wake(_) =>
  }

  /** A run is a series of events, each possible when it happens. */
  ghost predicate Reaches(s: Session, events: seq<Event>, t: Session)
    decreases |events|
  {
    if events == [] then t == s
    else Can(s, events[0]) && Reaches(Next(s, events[0]), events[1..], t)
  }

  lemma {:induction false} InvAlways(s: Session, events: seq<Event>, t: Session)
    requires Inv(s) && Reaches(s, events, t)
    ensures Inv(t)
    decreases |events|
  {
    if events != [] {
      StepKeepsInv(s, events[0]);
      InvAlways(Next(s, events[0]), events[1..], t);
    }
  }

  /** At most one build per key and generation is in flight, and at most one ever succeeds. */
  lemma {:induction false} AtMostOneBuild(events: seq<Event>, t: Session, a: nat, b: nat)
    requires Reaches(FIRST, events, t)
    requires a < |t.table.builds| && b < |t.table.builds|
    requires t.table.builds[a].key == t.table.builds[b].key
    requires t.table.builds[a].generation == t.table.builds[b].generation
    requires !t.table.builds[a].outcome.Errored? && !t.table.builds[b].outcome.Errored?
    ensures a == b
  {
    InvAlways(FIRST, events, t);
  }

  lemma {:induction false} HistoryStays(s: Session, events: seq<Event>, t: Session)
    requires Inv(s) && Reaches(s, events, t)
    ensures |s.calls| <= |t.calls| && |s.table.builds| <= |t.table.builds|
    ensures s.table.generation <= t.table.generation
    ensures forall c | 0 <= c < |s.calls| :: t.calls[c].began == s.calls[c].began
    ensures forall c | |s.calls| <= c < |t.calls| :: t.calls[c].began >= s.table.generation
    decreases |events|
  {
    if events != [] {
      StepKeepsInv(s, events[0]);
      HistoryStays(Next(s, events[0]), events[1..], t);
    }
  }

  /**
   A call that began after a forget never comes back with a source whose build began
   before it, however calls, builds and further forgets interleave.
  */
  lemma {:induction false} NeverServesForgotten(
    before: seq<Event>, s: Session, after: seq<Event>, t: Session, call: nat, build: nat)
    requires Reaches(FIRST, before, s)
    requires Reaches(Next(s, Forget), after, t)
    requires |s.calls| <= call < |t.calls| && t.calls[call].stage == Returned(build)
    ensures |s.table.builds| <= build < |t.table.builds|
    ensures t.table.builds[build].key == t.calls[call].key
  {
    InvAlways(FIRST, before, s);
    StepKeepsInv(s, Forget);
    InvAlways(Next(s, Forget), after, t);
    HistoryStays(Next(s, Forget), after, t);
    OldBuildsStayOld(Next(s, Forget), after, t);
  }

  lemma {:induction false} OldBuildsStayOld(s: Session, events: seq<Event>, t: Session)
    requires Inv(s) && Reaches(s, events, t)
    ensures |s.table.builds| <= |t.table.builds|
    ensures forall b | 0 <= b < |s.table.builds| :: t.table.builds[b].generation == s.table.builds[b].generation
    decreases |events|
  {
    if events != [] {
      StepKeepsInv(s, events[0]);
      OldBuildsStayOld(Next(s, events[0]), events[1..], t);
    }
  }

  // --- what ends a build, told from the events ---

  /** Build b was ended by an event of call c, which said whether it worked. */
  ghost predicate EndedBy(s: Session, past: seq<Event>, b: nat, c: nat, ok: bool) {
    && c < |s.calls| && s.calls[c].stage == Returned(b)
    && BuildEnds(c, ok) in past
  }

  ghost predicate EndedSo(s: Session, past: seq<Event>, b: nat, ok: bool) {
    exists c :: EndedBy(s, past, b, c, ok)
  }

  /** Every build that is over is over as the event that ended it said. */
  ghost predicate OutcomesSound(s: Session, past: seq<Event>) {
    forall b | 0 <= b < |s.table.builds| ::
      && (s.table.builds[b].outcome.Built? ==> EndedSo(s, past, b, true))
      && (s.table.builds[b].outcome.Errored? ==> EndedSo(s, past, b, false))
  }

  lemma {:induction false} EndedStays(s: Session, past: seq<Event>, e: Event, b: nat, ok: bool)
    requires Can(s, e) && EndedSo(s, past, b, ok)
    ensures EndedSo(Next(s, e), past + [e], b, ok)
  {
    var c :| EndedBy(s, past, b, c, ok);
    assert EndedBy(Next(s, e), past + [e], b, c, ok);
  }

  lemma {:induction false} EndsNow(s: Session, past: seq<Event>, c: nat, ok: bool)
    requires Inv(s) && Can(s, BuildEnds(c, ok))
    ensures EndedSo(Next(s, BuildEnds(c, ok)), past + [BuildEnds(c, ok)], s.calls[c].stage.build, ok)
  {
    var e := BuildEnds(c, ok);
    assert (past + [e])[|past|] == e;
    assert EndedBy(Next(s, e), past + [e], s.calls[c].stage.build, c, ok);
  }

  lemma {:induction false} OutcomesStep(s: Session, past: seq<Event>, e: Event)
    requires Inv(s) && OutcomesSound(s, past) && Can(s, e)
    ensures OutcomesSound(Next(s, e), past + [e])
  {
    var t := Next(s, e);
    if e.BuildEnds? {
      EndsNow(s, past, e.call, e.ok);
    }
    forall b | 0 <= b < |t.table.builds|
      ensures t.table.builds[b].outcome.Built? ==> EndedSo(t, past + [e], b, true)
      ensures t.table.builds[b].outcome.Errored? ==> EndedSo(t, past + [e], b, false)
    {
      if b < |s.table.builds| && t.table.builds[b] == s.table.builds[b] && !t.table.builds[b].outcome.InFlight? {
        EndedStays(s, past, e, b, t.table.builds[b].outcome.Built?);
      }
    }
  }

  lemma {:induction false} OutcomesAlways(s: Session, past: seq<Event>, events: seq<Event>, t: Session)
    requires Inv(s) && OutcomesSound(s, past) && Reaches(s, events, t)
    ensures Inv(t) && OutcomesSound(t, past + events)
    decreases |events|
  {
    if events == [] {
      assert past + events == past;
    } else {
      StepKeepsInv(s, events[0]);
      OutcomesStep(s, past, events[0]);
      OutcomesAlways(Next(s, events[0]), past + [events[0]], events[1..], t);
      assert past + events == past + [events[0]] + events[1..];
    }
  }

  /** What a caller is given at once is a source whose build came back without an error. */
  lemma {:induction false} OnlyWorkingSourcesAreKept(events: seq<Event>, t: Session, key: TokenKey)
    requires Reaches(FIRST, events, t) && VerdictFor(t.table, key).Use?
    ensures var b := VerdictFor(t.table, key).build;
      && b < |t.table.builds| && t.table.builds[b].key == key
      && exists c :: 0 <= c < |t.calls| && t.calls[c].stage == Returned(b) && BuildEnds(c, true) in events
  {
    OutcomesAlways(FIRST, [], events, t);
    assert [] + events == events;
    var b := VerdictFor(t.table, key).build;
    var c :| EndedBy(t, events, b, c, true);
  }

  /**
   A build that works, with no forget since its call began, is what the next caller of that
   key is given; one that fails leaves the next caller to build again.
  */
  lemma {:induction false} NextCallerIsServed(events: seq<Event>, s: Session, c: nat, ok: bool)
    requires Reaches(FIRST, events, s) && Can(s, BuildEnds(c, ok))
    requires s.calls[c].began == s.table.generation
    ensures var t := Next(s, BuildEnds(c, ok));
      VerdictFor(t.table, s.calls[c].key) == if ok then Use(s.calls[c].stage.build) else Make(|t.table.builds|)
  {
    InvAlways(FIRST, events, s);
    var b := s.calls[c].stage.build;
    assert IsFound(s.table, b);
    if s.calls[c].key in s.table.sources {
      OneOfTwoFailed(s.table, b, s.table.sources[s.calls[c].key]);
    }
  }

  /** Callers that wait for a build come back with it, once it is over and not before. */
  lemma {:induction false} WaitersWakeWhenItEnds(events: seq<Event>, t: Session, c: nat)
    requires Reaches(FIRST, events, t) && c < |t.calls| && t.calls[c].stage.Waiting?
    ensures var b := t.calls[c].stage.build;
      && (Can(t, Wake(c)) <==> exists d, ok :: EndedBy(t, events, b, d, ok))
      && (Can(t, Wake(c)) ==> Next(t, Wake(c)).calls[c].stage == Returned(b))
  {
    OutcomesAlways(FIRST, [], events, t);
    assert [] + events == events;
    var b := t.calls[c].stage.build;
    if Can(t, Wake(c)) {
      var ok := t.table.builds[b].outcome.Built?;
      assert EndedSo(t, events, b, ok);
      var d :| EndedBy(t, events, b, d, ok);
    }
  }
}
