/**
 The runner and the token table together. A run that rewrites the config file forgets the
 session's tokens before it lets go of the lock; this is what that order is worth.
*/
module RunnerTokens {
  import R = TuiRunner
  import RunnerSafety
  import T = SessionTokens

  /** A rewrite that has forgotten: the generation it began, and how many builds were older. */
  datatype Mark = Mark(generation: nat, builds: nat)

  /** Both machines, whose call each token call is, and the rewrites so far. */
  datatype Tui = Tui(runner: R.Runner, tokens: T.Session, owners: seq<nat>, rewrites: map<nat, Mark>)

  datatype Event =
    | Step(move: R.Label)
    | GetSource(run: nat, key: T.TokenKey)   // a command asks for its project's source
    | BuildEnds(call: nat, ok: bool)
    | Wake(call: nat)
    | SwitchProject                          // the UI selects another project or the emulator

  const START := Tui(R.IDLE, T.FIRST, [], map[])

  /** The move that forgets: deferred after the unlock, and so run before it. */
  predicate Forgets(s: R.Runner, l: R.Label) {
    && l.Move? && l.act.Forget?
    && R.IsRun(s, l.run) && s.runs[l.run].job.rewritesConfig
  }

  predicate Can(s: Tui, e: Event) {
    match e
    case Step(l) => R.Can(s.runner, l)
    case GetSource(i, _) => R.IsRun(s.runner, i) && s.runner.runs[i].phase.Executing?
    case BuildEnds(c, ok) => T.Can(s.tokens, T.BuildEnds(c, ok))
    case Wake(c) => T.Can(s.tokens, T.Wake(c))
    case SwitchProject => true
  }

  function Next(s: Tui, e: Event): Tui
    requires Can(s, e)
  {
    match e
    case Step(l) =>
      var t := s.(runner := R.Next(s.runner, l));
      if Forgets(s.runner, l) then
        t.(tokens := T.Next(s.tokens, T.Forget),
           rewrites := s.rewrites[l.run := Mark(s.tokens.table.generation + 1, |s.tokens.table.builds|)])
      else t
    case GetSource(i, key) => s.(tokens := T.Next(s.tokens, T.Enter(key)), owners := s.owners + [i])
    case BuildEnds(c, ok) => s.(tokens := T.Next(s.tokens, T.BuildEnds(c, ok)))
    case Wake(c) => s.(tokens := T.Next(s.tokens, T.Wake(c)))
    case SwitchProject => s.(tokens := T.Next(s.tokens, T.Forget))
  }

  ghost predicate Reaches(s: Tui, events: seq<Event>, t: Tui)
    decreases |events|
  {
    if events == [] then t == s
    else Can(s, events[0]) && Reaches(Next(s, events[0]), events[1..], t)
  }

  // --- what always holds ---

  /** The phases of a run whose command has begun. */
  predicate Begun(p: R.Phase) {
    || R.Commanding(p) || p.Returned? || p.Unlocking? || (p.EmitDone? && p.slot)
    || p.FreeSlot? || p.CloseDone? || p.Ended?
  }

  ghost predicate ExecutedSound(s: R.Runner) {
    forall i | 0 <= i < |s.runs| ::
      (s.runs[i].executed ==> Begun(s.runs[i].phase)) && (R.Commanding(s.runs[i].phase) ==> s.runs[i].executed)
  }

  ghost predicate OwnersSound(s: Tui) {
    && |s.owners| == |s.tokens.calls|
    && forall c | 0 <= c < |s.owners| :: R.IsRun(s.runner, s.owners[c]) && s.runner.runs[s.owners[c]].executed
  }

  ghost predicate MarksSound(s: Tui) {
    forall w | w in s.rewrites ::
      && s.rewrites[w].generation <= s.tokens.table.generation
      && s.rewrites[w].builds <= |s.tokens.table.builds|
      && forall b | 0 <= b < s.rewrites[w].builds ::
           s.tokens.table.builds[b].generation < s.rewrites[w].generation
  }

  /** A command under the lock only ever asked after every rewrite there has been. */
  ghost predicate AskedAfter(s: Tui, c: nat)
    requires OwnersSound(s) && c < |s.owners|
  {
    var r := s.runner.runs[s.owners[c]];
    R.Commanding(r.phase) && R.TakesLock(r.job) ==>
      forall w | w in s.rewrites :: s.rewrites[w].generation <= s.tokens.calls[c].began
  }

  ghost predicate Sound(s: Tui) {
    && RunnerSafety.Safe(s.runner) && T.Inv(s.tokens) && ExecutedSound(s.runner)
    && OwnersSound(s) && MarksSound(s)
    && forall c | 0 <= c < |s.owners| :: AskedAfter(s, c)
  }

  lemma ExecutedKept(s: R.Runner, l: R.Label)
    requires ExecutedSound(s) && R.Can(s, l)
    ensures ExecutedSound(R.Next(s, l))
  {
  }

  lemma RunnerGrows(s: R.Runner, l: R.Label)
    requires R.Can(s, l)
    ensures RunnerSafety.Extends(s, R.Next(s, l))
  {
    if l.Move? {
      RunnerSafety.MoveExtends(s, l.run, l.act);
    } else {
      RunnerSafety.CallExtends(s, l);
    }
  }

  /** A command that was not under way before this step has not begun before it. */
  lemma NewlyCommanding(s: R.Runner, l: R.Label, i: nat)
    requires R.Can(s, l) && ExecutedSound(s) && R.IsRun(s, i)
    requires R.Commanding(R.Next(s, l).runs[i].phase) && s.runs[i].executed
    ensures R.Commanding(s.runs[i].phase)
  {
  }

  lemma TokensKept(s: T.Session, e: T.Event)
    requires T.Inv(s) && T.Can(s, e)
    ensures var t := T.Next(s, e);
      && T.Inv(t)
      && |s.calls| <= |t.calls| && |s.table.builds| <= |t.table.builds|
      && (e.Enter? || |t.calls| == |s.calls|)
      && s.table.generation <= t.table.generation
      && (forall c | 0 <= c < |s.calls| :: t.calls[c].began == s.calls[c].began)
      && (forall b | 0 <= b < |s.table.builds| :: t.table.builds[b].generation == s.table.builds[b].generation)
  {
    T.StepKeepsInv(s, e);
  }

  /** While a run forgets, it has the lock as its writer, so no other command is under it. */
  lemma ForgetsAlone(s: R.Runner, l: R.Label, i: nat)
    requires RunnerSafety.Safe(s) && R.Can(s, l) && Forgets(s, l) && R.IsRun(s, i)
    requires R.Commanding(R.Next(s, l).runs[i].phase)
    ensures !R.TakesLock(s.runs[i].job)
  {
    assert RunnerSafety.ChainAt(s, l.run);
    assert RunnerSafety.LockAt(s, l.run) && RunnerSafety.LockAt(s, i);
  }

  lemma StepKeepsSound(s: Tui, l: R.Label)
    requires Sound(s) && R.Can(s.runner, l)
    ensures Sound(Next(s, Step(l)))
  {
    var t := Next(s, Step(l));
    RunnerSafety.SafeStep(s.runner, l);
    ExecutedKept(s.runner, l);
    RunnerGrows(s.runner, l);
    if Forgets(s.runner, l) {
      TokensKept(s.tokens, T.Forget);
    }
    forall c | 0 <= c < |t.owners| ensures AskedAfter(t, c) {
      assert AskedAfter(s, c);
      var i := t.owners[c];
      if R.Commanding(t.runner.runs[i].phase) {
        NewlyCommanding(s.runner, l, i);
        if Forgets(s.runner, l) {
          ForgetsAlone(s.runner, l, i);
        }
      }
    }
  }

  lemma TokenStepKeepsSound(s: Tui, e: T.Event)
    requires Sound(s) && T.Can(s.tokens, e) && !e.Enter?
    ensures Sound(s.(tokens := T.Next(s.tokens, e)))
  {
    var t := s.(tokens := T.Next(s.tokens, e));
    TokensKept(s.tokens, e);
    forall c | 0 <= c < |t.owners| ensures AskedAfter(t, c) {
      assert AskedAfter(s, c);
    }
  }

  lemma GetSourceKeepsSound(s: Tui, i: nat, key: T.TokenKey)
    requires Sound(s) && Can(s, GetSource(i, key))
    ensures Sound(Next(s, GetSource(i, key)))
  {
    var t := Next(s, GetSource(i, key));
    TokensKept(s.tokens, T.Enter(key));
    assert t.tokens.calls[|s.owners|].began == s.tokens.table.generation;
    forall c | 0 <= c < |t.owners| ensures AskedAfter(t, c) {
      if c < |s.owners| {
        assert AskedAfter(s, c);
      }
    }
  }

  lemma {:induction false} SoundAlways(s: Tui, events: seq<Event>, t: Tui)
    requires Sound(s) && Reaches(s, events, t)
    ensures Sound(t)
    decreases |events|
  {
    if events != [] {
      match events[0] {
        case Step(l) => StepKeepsSound(s, l);
        case GetSource(i, key) => GetSourceKeepsSound(s, i, key);
        case BuildEnds(c, ok) => TokenStepKeepsSound(s, T.BuildEnds(c, ok));
        case Wake(c) => TokenStepKeepsSound(s, T.Wake(c));
        case SwitchProject => TokenStepKeepsSound(s, T.Forget);
      }
      SoundAlways(Next(s, events[0]), events[1..], t);
    }
  }

  /**
   A command running under the lock has never been handed a source whose build began
   before a config rewrite that has happened: not one kept from before it, and not one
   whose build was under way while the file was rewritten.
  */
  lemma NoSourceFromBeforeRewrite(events: seq<Event>, s: Tui, c: nat, w: nat, build: nat)
    requires Reaches(START, events, s)
    requires c < |s.owners| && c < |s.tokens.calls| && R.IsRun(s.runner, s.owners[c])
    requires R.Commanding(s.runner.runs[s.owners[c]].phase) && R.TakesLock(s.runner.runs[s.owners[c]].job)
    requires w in s.rewrites && s.tokens.calls[c].stage == T.Returned(build)
    ensures s.rewrites[w].builds <= build
  {
    SoundAlways(START, events, s);
    assert AskedAfter(s, c);
  }

  // --- a rewrite always forgets ---

  /** Let through, and past its own forgetting. */
  predicate HasForgotten(r: R.Run) {
    || r.phase.Unlocking?
    || (r.executed && (r.phase.EmitDone? || r.phase.FreeSlot? || r.phase.CloseDone? || r.phase.Ended?))
  }

  /** Run w rewrites the config file. Past its forgetting it has left a mark, over at least n builds; before, none. */
  ghost predicate Watched(s: Tui, w: nat, n: nat) {
    && R.IsRun(s.runner, w) && s.runner.runs[w].job.rewritesConfig
    && n <= |s.tokens.table.builds|
    && (w in s.rewrites ==> s.rewrites[w].builds >= n)
    && (HasForgotten(s.runner.runs[w]) ==> w in s.rewrites)
    && (R.Commanding(s.runner.runs[w].phase) || s.runner.runs[w].phase.Returned? ==> w !in s.rewrites)
    && (w in s.rewrites ==> LeftSection(s.runner.runs[w].phase))
  }

  predicate LeftSection(p: R.Phase) {
    p.Unlocking? || (p.EmitDone? && p.slot) || p.FreeSlot? || p.CloseDone? || p.Ended?
  }

  lemma WatchedByForgetting(s: Tui, w: nat, n: nat)
    requires Sound(s) && Watched(s, w, n) && R.CanMove(s.runner, w, R.Forget)
    ensures Watched(Next(s, Step(R.Move(w, R.Forget))), w, n)
  {
    assert Forgets(s.runner, R.Move(w, R.Forget));
  }

  /** The run's own other moves: only forgetting leads to Unlocking, and only from there has it forgotten. */
  lemma OwnMoveShape(s: R.Runner, w: nat, act: R.Act)
    requires R.IsRun(s, w) && R.CanMove(s, w, act) && act != R.Forget && ExecutedSound(s)
    ensures var r, r' := s.runs[w], R.RunAfter(s, w, act);
      && r'.job == r.job
      && (HasForgotten(r') ==> HasForgotten(r))
      && (R.Commanding(r'.phase) || r'.phase.Returned? ==> !LeftSection(r.phase))
      && (LeftSection(r.phase) ==> LeftSection(r'.phase))
  {
  }

  lemma WatchedByMove(s: Tui, l: R.Label, w: nat, n: nat)
    requires Sound(s) && Watched(s, w, n) && R.Can(s.runner, l) && l.Move? && l.run == w
    ensures Watched(Next(s, Step(l)), w, n)
  {
    if l.act.Forget? {
      WatchedByForgetting(s, w, n);
    } else {
      OwnMoveShape(s.runner, w, l.act);
    }
  }

  lemma WatchedByOther(s: Tui, l: R.Label, w: nat, n: nat)
    requires Sound(s) && Watched(s, w, n) && R.Can(s.runner, l) && !(l.Move? && l.run == w)
    ensures Watched(Next(s, Step(l)), w, n)
  {
  }

  lemma WatchedStep(s: Tui, e: Event, w: nat, n: nat)
    requires Sound(s) && Watched(s, w, n) && Can(s, e)
    ensures Watched(Next(s, e), w, n)
  {
    match e
    case Step(l) =>
      if l.Move? && l.run == w {
        WatchedByMove(s, l, w, n);
      } else {
        WatchedByOther(s, l, w, n);
      }
    case GetSource(_, key) => TokensKept(s.tokens, T.Enter(key));
    case BuildEnds(c, ok) => TokensKept(s.tokens, T.BuildEnds(c, ok));
    case Wake(c) => TokensKept(s.tokens, T.Wake(c));
    case SwitchProject => TokensKept(s.tokens, T.Forget);
  }

  lemma SoundStep(s: Tui, e: Event)
    requires Sound(s) && Can(s, e)
    ensures Sound(Next(s, e))
  {
    match e
    case Step(l) => StepKeepsSound(s, l);
    case GetSource(i, key) => GetSourceKeepsSound(s, i, key);
    case BuildEnds(c, ok) => TokenStepKeepsSound(s, T.BuildEnds(c, ok));
    case Wake(c) => TokenStepKeepsSound(s, T.Wake(c));
    case SwitchProject => TokenStepKeepsSound(s, T.Forget);
  }

  lemma {:induction false} WatchedAlways(s: Tui, events: seq<Event>, t: Tui, w: nat, n: nat)
    requires Sound(s) && Watched(s, w, n) && Reaches(s, events, t)
    ensures Sound(t) && Watched(t, w, n)
    decreases |events|
  {
    if events != [] {
      SoundStep(s, events[0]);
      WatchedStep(s, events[0], w, n);
      WatchedAlways(Next(s, events[0]), events[1..], t, w, n);
    }
  }

  /** The start of a run that rewrites the config file, at whose forgetting nothing has looked yet. */
  lemma StartIsWatched(before: seq<Event>, s: Tui, alone: bool, stream: bool, work: nat)
    requires Reaches(START, before, s) && !s.runner.closed
    ensures var t := Next(s, Step(R.Start(alone, R.RewritesConfig, stream, work)));
      Sound(t) && Watched(t, |s.runner.runs|, 0)
  {
    SoundAlways(START, before, s);
    OnlyRunsRewrite(START, before, s);
    SoundStep(s, Step(R.Start(alone, R.RewritesConfig, stream, work)));
  }

  lemma {:induction false} OnlyRunsRewrite(s: Tui, events: seq<Event>, t: Tui)
    requires Reaches(s, events, t) && forall w | w in s.rewrites :: R.IsRun(s.runner, w)
    ensures forall w | w in t.rewrites :: R.IsRun(t.runner, w)
    decreases |events|
  {
    if events != [] {
      if events[0].Step? {
        RunnerGrows(s.runner, events[0].move);
      }
      OnlyRunsRewrite(Next(s, events[0]), events[1..], t);
    }
  }

  /** A run started to rewrite the config file, once it has executed and is giving up the lock, has forgotten the tokens. */
  lemma {:induction false} RewriteForgets(
    before: seq<Event>, s: Tui, alone: bool, stream: bool, work: nat, after: seq<Event>, t: Tui)
    requires Reaches(START, before, s) && !s.runner.closed
    requires Reaches(Next(s, Step(R.Start(alone, R.RewritesConfig, stream, work))), after, t)
    ensures R.IsRun(t.runner, |s.runner.runs|)
    ensures HasForgotten(t.runner.runs[|s.runner.runs|]) ==> |s.runner.runs| in t.rewrites
  {
    StartIsWatched(before, s, alone, stream, work);
    WatchedAlways(Next(s, Step(R.Start(alone, R.RewritesConfig, stream, work))), after, t, |s.runner.runs|, 0);
  }

  /**
   The promise whole, and told from the history alone. A run is started to rewrite the config
   file. At some point it is still in its command, and some builds have begun. Later it has
   executed and let go of the lock: then no command under the lock is handed any of them.
  */
  lemma {:induction false} RewriteCutsOffOldSources(
    before: seq<Event>, s: Tui, alone: bool, stream: bool, work: nat,
    during: seq<Event>, u: Tui, after: seq<Event>, t: Tui, c: nat, build: nat)
    requires Reaches(START, before, s) && !s.runner.closed
    requires Reaches(Next(s, Step(R.Start(alone, R.RewritesConfig, stream, work))), during, u)
    requires Reaches(u, after, t)
    requires R.IsRun(u.runner, |s.runner.runs|) && R.IsRun(t.runner, |s.runner.runs|)
    requires R.Commanding(u.runner.runs[|s.runner.runs|].phase) && HasForgotten(t.runner.runs[|s.runner.runs|])
    requires c < |t.owners| && c < |t.tokens.calls| && R.IsRun(t.runner, t.owners[c])
    requires R.Commanding(t.runner.runs[t.owners[c]].phase) && R.TakesLock(t.runner.runs[t.owners[c]].job)
    requires t.tokens.calls[c].stage == T.Returned(build)
    ensures build >= |u.tokens.table.builds|
  {
    var w := |s.runner.runs|;
    StartIsWatched(before, s, alone, stream, work);
    WatchedAlways(Next(s, Step(R.Start(alone, R.RewritesConfig, stream, work))), during, u, w, 0);
    WatchedAlways(u, after, t, w, |u.tokens.table.builds|);
    assert AskedAfter(t, c);
  }

  // --- so does a switch of project ---

  /** From s to t: the forgets and builds only grow, and whoever asks later began later. */
  ghost predicate Later(s: Tui, t: Tui) {
    && s.tokens.table.generation <= t.tokens.table.generation
    && |s.tokens.calls| <= |t.tokens.calls| && |s.tokens.table.builds| <= |t.tokens.table.builds|
    && (forall b | 0 <= b < |s.tokens.table.builds| ::
          t.tokens.table.builds[b].generation == s.tokens.table.builds[b].generation)
    && (forall c | 0 <= c < |s.tokens.calls| :: t.tokens.calls[c].began == s.tokens.calls[c].began)
    && (forall c | |s.tokens.calls| <= c < |t.tokens.calls| :: t.tokens.calls[c].began >= s.tokens.table.generation)
  }

  lemma LaterStep(s: Tui, e: Event)
    requires Sound(s) && Can(s, e)
    ensures Later(s, Next(s, e))
  {
    match e
    case Step(l) =>
      if Forgets(s.runner, l) {
        TokensKept(s.tokens, T.Forget);
      }
    case GetSource(_, key) => TokensKept(s.tokens, T.Enter(key));
    case BuildEnds(c, ok) => TokensKept(s.tokens, T.BuildEnds(c, ok));
    case Wake(c) => TokensKept(s.tokens, T.Wake(c));
    case SwitchProject => TokensKept(s.tokens, T.Forget);
  }

  lemma {:induction false} LaterAlways(s: Tui, events: seq<Event>, t: Tui)
    requires Sound(s) && Reaches(s, events, t)
    ensures Sound(t) && Later(s, t)
    decreases |events|
  {
    if events != [] {
      var u := Next(s, events[0]);
      SoundStep(s, events[0]);
      LaterStep(s, events[0]);
      LaterAlways(u, events[1..], t);
      LaterTwice(s, u, t);
    }
  }

  lemma LaterTwice(s: Tui, u: Tui, t: Tui)
    requires Later(s, u) && Later(u, t)
    ensures Later(s, t)
  {
  }

  /** Nobody who asks after the UI switched project or emulator is handed a source whose build began before. */
  lemma {:induction false} SwitchCutsOffOldSources(before: seq<Event>, s: Tui, after: seq<Event>, t: Tui, c: nat, build: nat)
    requires Reaches(START, before, s) && Reaches(Next(s, SwitchProject), after, t)
    requires |s.tokens.calls| <= c < |t.tokens.calls| && t.tokens.calls[c].stage == T.Returned(build)
    ensures |s.tokens.table.builds| <= build < |t.tokens.table.builds|
  {
    SoundAlways(START, before, s);
    SoundStep(s, SwitchProject);
    LaterAlways(Next(s, SwitchProject), after, t);
  }
}
