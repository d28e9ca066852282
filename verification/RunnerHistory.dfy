/**
 The runner's promises told from its history alone: from the starts, cancels, answers and
 reads the UI made, and not from what the runner has written down about them.
*/
module RunnerHistory {
  import opened Wrappers
  import opened TuiRunner
  import opened RunnerSafety
  import opened RunnerEvents

  // ---------------------------------------------------------------------------
  // Starts.
  // ---------------------------------------------------------------------------

  /** What a start asked for is what its run is, for good: alone when asked or when it rewrites a file. */
  lemma StartedAs(s: Runner, alone: bool, rewrites: Rewrites, stream: bool, work: nat, after: seq<Label>, t: Runner)
    requires !s.closed && Reaches(Next(s, Start(alone, rewrites, stream, work)), after, t)
    ensures IsRun(t, |s.runs|)
    ensures var job := t.runs[|s.runs|].job;
      && (job.exclusive <==> alone || rewrites == RewritesConfig || rewrites == RewritesOther)
      && (job.rewritesConfig <==> rewrites == RewritesConfig)
      && job.stream == stream
  {
    LinksStay(Next(s, Start(alone, rewrites, stream, work)), after, t);
  }

  /**
   A run started to be alone, or to rewrite a file, shares its section with nobody but runs
   that were started streamed and neither alone nor to rewrite anything.
  */
  lemma StartedAloneRunsAlone(
    before: seq<Label>, s: Runner, alone: bool, rewrites: Rewrites, stream: bool, work: nat,
    after: seq<Label>, t: Runner, j: nat)
    requires Reaches(IDLE, before, s) && !s.closed && (alone || rewrites != RewritesNothing)
    requires Reaches(Next(s, Start(alone, rewrites, stream, work)), after, t)
    requires IsRun(t, j) && j != |s.runs| && IsRun(t, |s.runs|)
    requires InSection(t.runs[|s.runs|].phase) && InSection(t.runs[j].phase)
    ensures t.runs[j].job.stream && !t.runs[j].job.exclusive
  {
    var l := Start(alone, rewrites, stream, work);
    StartedAs(s, alone, rewrites, stream, work, after, t);
    ReachesMore(IDLE, before, s, l);
    ReachesOn(IDLE, before + [l], Next(s, l), after, t);
    ExclusiveRunsAlone(before + [l] + after, t, |s.runs|, j);
  }

  /** After a close nothing starts. */
  lemma {:induction false} ClosedStartsNothing(s: Runner, labels: seq<Label>, t: Runner)
    requires s.closed && Reaches(s, labels, t)
    ensures t.closed && |t.runs| == |s.runs|
    decreases |labels|
  {
    if labels != [] {
      ClosedStartsNothing(Next(s, labels[0]), labels[1..], t);
    }
  }

  lemma CloseStartsNothing(s: Runner, labels: seq<Label>, t: Runner)
    requires Can(s, CloseCalled) && Reaches(Next(s, CloseCalled), labels, t)
    ensures |t.runs| == |s.runs|
  {
    ClosedStartsNothing(Next(s, CloseCalled), labels, t);
  }

  // ---------------------------------------------------------------------------
  // Questions and answers.
  // ---------------------------------------------------------------------------

  /** What a run has been told, it was told by the UI. */
  ghost predicate HeardAt(r: Run, i: nat, said: seq<Label>) {
    && (r.answer.Some? ==> Asking(r.phase) && Answer(i, r.phase.q, r.answer.value) in said)
    && forall q | q in r.yes :: Answer(i, q, true) in said
  }

  ghost predicate Heard(s: Runner, said: seq<Label>) {
    QuestionsSound(s) && forall i | 0 <= i < |s.runs| :: HeardAt(s.runs[i], i, said)
  }

  lemma HeardMore(r: Run, i: nat, said: seq<Label>, l: Label)
    requires HeardAt(r, i, said)
    ensures HeardAt(r, i, said + [l])
  {
  }

  lemma HeardByMove(s: Runner, said: seq<Label>, l: Label)
    requires Heard(s, said) && Can(s, l) && l.Move?
    ensures HeardAt(Next(s, l).runs[l.run], l.run, said)
  {
    assert HeardAt(s.runs[l.run], l.run, said) && QuestionAt(s, s.runs[l.run]);
  }

  lemma HeardByCall(s: Runner, said: seq<Label>, l: Label, i: nat)
    requires Heard(s, said) && Can(s, l) && !l.Move? && IsRun(Next(s, l), i)
    ensures HeardAt(Next(s, l).runs[i], i, said + [l])
  {
    if i < |s.runs| {
      assert HeardAt(s.runs[i], i, said) && QuestionAt(s, s.runs[i]);
      HeardMore(s.runs[i], i, said, l);
      assert (said + [l])[|said|] == l;
    }
  }

  lemma HeardStep(s: Runner, said: seq<Label>, l: Label)
    requires Heard(s, said) && Can(s, l)
    ensures Heard(Next(s, l), said + [l])
  {
    var t := Next(s, l);
    if l.Move? {
      QuestionsKeptByMove(s, l.run, l.act);
      HeardByMove(s, said, l);
      forall i | 0 <= i < |t.runs| ensures HeardAt(t.runs[i], i, said + [l]) {
        assert HeardAt(t.runs[i], i, said);
        HeardMore(t.runs[i], i, said, l);
      }
    } else {
      QuestionsKeptByCall(s, l);
      forall i | 0 <= i < |t.runs| ensures HeardAt(t.runs[i], i, said + [l]) {
        HeardByCall(s, said, l, i);
      }
    }
  }

  lemma {:induction false} HeardAlways(s: Runner, said: seq<Label>, labels: seq<Label>, t: Runner)
    requires Heard(s, said) && Reaches(s, labels, t)
    ensures Heard(t, said + labels)
    decreases |labels|
  {
    if labels == [] {
      assert said + labels == said;
    } else {
      HeardStep(s, said, labels[0]);
      HeardAlways(Next(s, labels[0]), said + [labels[0]], labels[1..], t);
      assert said + labels == said + [labels[0]] + labels[1..];
    }
  }

  /** A run reads a yes only when the UI answered yes, to that run and that question. */
  lemma YesOnlyWhereSaid(labels: seq<Label>, s: Runner, i: nat, q: nat)
    requires Reaches(IDLE, labels, s) && IsRun(s, i) && q in s.runs[i].yes
    ensures Answer(i, q, true) in labels
  {
    HeardAlways(IDLE, [], labels, s);
    assert [] + labels == labels;
    assert HeardAt(s.runs[i], i, labels);
  }

  /** Question q has its answer, and keeps it until the run has read it. */
  ghost predicate Settled(s: Runner, i: nat, q: nat, yes: bool) {
    && IsRun(s, i) && q < s.nextQuestion
    && var r := s.runs[i];
    && (r.question.Some? ==> Asking(r.phase) && r.question.value == r.phase.q)
    && (Asking(r.phase) && r.phase.q == q ==> r.question.None? && r.answer == Some(yes) && q !in r.yes)
  }

  lemma SettledStep(s: Runner, l: Label, i: nat, q: nat, yes: bool)
    requires Settled(s, i, q, yes) && Can(s, l)
    ensures Settled(Next(s, l), i, q, yes)
  {
  }

  lemma {:induction false} StaysSettled(s: Runner, labels: seq<Label>, t: Runner, i: nat, q: nat, yes: bool)
    requires Settled(s, i, q, yes) && Reaches(s, labels, t)
    ensures Settled(t, i, q, yes)
    decreases |labels|
  {
    if labels != [] {
      SettledStep(s, labels[0], i, q, yes);
      StaysSettled(Next(s, labels[0]), labels[1..], t, i, q, yes);
    }
  }

  /**
   The first answer to an open question is the one its run gets to read, whatever is answered
   after it: a yes is read as a yes and a no as a no, unless the run's context is over.
  */
  lemma AnswerIsRead(
    before: seq<Label>, s: Runner, i: nat, q: nat, yes: bool, after: seq<Label>, t: Runner)
    requires Reaches(IDLE, before, s) && IsRun(s, i) && s.runs[i].question == Some(q)
    requires Reaches(Next(s, Answer(i, q, yes)), after, t)
    requires IsRun(t, i) && t.runs[i].phase == AwaitAnswer(q)
    ensures Can(t, Move(i, ReadAnswer))
    ensures q in Next(t, Move(i, ReadAnswer)).runs[i].yes <==> yes && !Interrupted(t, i)
  {
    ReachableIsWitnessed(before, s);
    var r := s.runs[i];
    assert QuestionAt(s, r) && !Asked(s, q);
    forall k | 0 <= k < |s.answers| ensures s.answers[k] != (q, true) {
    }
    StaysSettled(Next(s, Answer(i, q, yes)), after, t, i, q, yes);
  }

  ghost predicate QuestionTold(s: Runner) {
    !s.stopped ==> forall i | 0 <= i < |s.runs| :: s.runs[i].phase.AwaitAnswer? ==> Question(s.runs[i].phase.q) in s.runs[i].sent
  }

  lemma QuestionToldStep(s: Runner, l: Label)
    requires QuestionTold(s) && Can(s, l)
    ensures QuestionTold(Next(s, l))
  {
    var t := Next(s, l);
    if l.Move? && l.act.Send? && t.runs[l.run].phase.AwaitAnswer? {
      var sent := t.runs[l.run].sent;
      assert sent[|sent| - 1] == Question(t.runs[l.run].phase.q);
    }
  }

  lemma {:induction false} QuestionToldAlways(s: Runner, labels: seq<Label>, t: Runner)
    requires QuestionTold(s) && Reaches(s, labels, t)
    ensures QuestionTold(t)
    decreases |labels|
  {
    if labels != [] {
      QuestionToldStep(s, labels[0]);
      QuestionToldAlways(Next(s, labels[0]), labels[1..], t);
    }
  }

  /** Until shutdown begins, a run that waits for an answer has put its question to the UI. */
  lemma WaitsOnlyForWhatItAsked(labels: seq<Label>, s: Runner, i: nat)
    requires Reaches(IDLE, labels, s) && !s.stopped && IsRun(s, i) && s.runs[i].phase.AwaitAnswer?
    ensures Question(s.runs[i].phase.q) in s.runs[i].sent
  {
    QuestionToldAlways(IDLE, labels, s);
  }

  // ---------------------------------------------------------------------------
  // Cancelling and stopping.
  // ---------------------------------------------------------------------------

  lemma {:induction false} StaysInterrupted(s: Runner, labels: seq<Label>, t: Runner, i: nat)
    requires IsRun(s, i) && Interrupted(s, i) && Reaches(s, labels, t)
    ensures IsRun(t, i) && Interrupted(t, i)
    decreases |labels|
  {
    if labels != [] {
      StaysInterrupted(Next(s, labels[0]), labels[1..], t, i);
    }
  }

  /**
   From a cancel of a run, or a stop of them all, the run takes no further yes; it is never
   in its command unless it was let through before; and it can leave every wait for its turn
   and every wait for an answer.
  */
  lemma CancelStops(before: seq<Label>, s: Runner, l: Label, after: seq<Label>, t: Runner, i: nat)
    requires Reaches(IDLE, before, s) && IsRun(s, i) && !s.runs[i].phase.Ended?
    requires Can(s, l) && (l == Cancel(i) || l == Stop) && Reaches(Next(s, l), after, t)
    ensures IsRun(t, i) && t.runs[i].yes == s.runs[i].yes
    ensures !s.runs[i].executed ==> !Commanding(t.runs[i].phase)
    ensures t.runs[i].phase.WaitAfter? || t.runs[i].phase.WaitSlot? ==> Can(t, Move(i, Interrupt))
    ensures t.runs[i].phase.AwaitAnswer? ==> Can(t, Move(i, AskInterrupted))
  {
    InterruptedRunStops(Next(s, l), after, t, i);
    StaysInterrupted(Next(s, l), after, t, i);
    if !s.runs[i].executed {
      ReachesMore(IDLE, before, s, l);
      CancelledNeverExecutes(before + [l], Next(s, l), after, t, i);
    }
  }

  /** Queued or waiting, or on the way out without ever having been announced as running. */
  ghost predicate Unannounced(r: Run) {
    && Running !in r.sent
    && (r.phase.EmitQueued? || r.phase.WaitAfter? || r.phase.WaitSlot? || r.phase.HaveSlot?
        || r.phase.EmitDone? || r.phase.FreeSlot? || r.phase.CloseDone? || r.phase.Ended?)
  }

  lemma {:induction false} StaysUnannounced(s: Runner, labels: seq<Label>, t: Runner, i: nat)
    requires IsRun(s, i) && Interrupted(s, i) && Unannounced(s.runs[i]) && Reaches(s, labels, t)
    ensures IsRun(t, i) && Unannounced(t.runs[i])
    decreases |labels|
  {
    if labels != [] {
      UnannouncedStep(s, labels[0], i);
      StaysUnannounced(Next(s, labels[0]), labels[1..], t, i);
    }
  }

  lemma UnannouncedMove(s: Runner, i: nat, act: Act)
    requires IsRun(s, i) && Interrupted(s, i) && Unannounced(s.runs[i]) && CanMove(s, i, act)
    ensures Unannounced(RunAfter(s, i, act))
  {
  }

  lemma UnannouncedStep(s: Runner, l: Label, i: nat)
    requires IsRun(s, i) && Interrupted(s, i) && Unannounced(s.runs[i]) && Can(s, l)
    ensures IsRun(Next(s, l), i) && Interrupted(Next(s, l), i) && Unannounced(Next(s, l).runs[i])
  {
    if l.Move? && l.run == i {
      UnannouncedMove(s, i, l.act);
    }
  }

  /** A run cancelled before it looked at its context with a slot in hand is never announced as running. */
  lemma CancelledInLineNeverRuns(before: seq<Label>, s: Runner, after: seq<Label>, t: Runner, i: nat)
    requires Reaches(IDLE, before, s) && IsRun(s, i) && Reaches(Next(s, Cancel(i)), after, t)
    requires var p := s.runs[i].phase; p.EmitQueued? || p.WaitAfter? || p.WaitSlot? || p.HaveSlot?
    ensures IsRun(t, i) && Running !in t.runs[i].sent
  {
    ReachableIsWitnessed(before, s);
    assert OrderAt(s.runs[i]);
    StaysUnannounced(Next(s, Cancel(i)), after, t, i);
  }

  // ---------------------------------------------------------------------------
  // The events channel.
  // ---------------------------------------------------------------------------

  function TotalSent(runs: seq<Run>): nat {
    if runs == [] then 0 else TotalSent(runs[..|runs| - 1]) + |runs[|runs| - 1].sent|
  }

  function Received(labels: seq<Label>): nat {
    if labels == [] then 0 else (if labels[0].Receive? then 1 else 0) + Received(labels[1..])
  }

  lemma {:induction false} SentAfterPut(runs: seq<Run>, i: nat, r: Run)
    requires i < |runs|
    ensures TotalSent(runs[i := r]) == TotalSent(runs) - |runs[i].sent| + |r.sent|
  {
    var n := |runs| - 1;
    if i < n {
      assert runs[i := r][..n] == runs[..n][i := r];
      SentAfterPut(runs[..n], i, r);
    } else {
      assert runs[i := r][..n] == runs[..n];
    }
  }

  lemma SentByMove(s: Runner, i: nat, act: Act)
    requires IsRun(s, i) && CanMove(s, i, act) && s.events.buffered <= 64
    ensures var t := Moved(s, i, act);
      && t.events.buffered <= 64
      && TotalSent(t.runs) + s.events.buffered == TotalSent(s.runs) + t.events.buffered
  {
    SentAfterPut(s.runs, i, RunAfter(s, i, act));
  }

  lemma SentByCall(s: Runner, l: Label)
    requires !l.Move? && CanCall(s, l)
    ensures var t := Called(s, l);
      && TotalSent(t.runs) == TotalSent(s.runs)
      && s.events.buffered == t.events.buffered + if l.Receive? then 1 else 0
  {
    var t := Called(s, l);
    if t.runs != s.runs {
      if l.Start? {
        assert t.runs[..|s.runs|] == s.runs;
      } else {
        SentAfterPut(s.runs, l.run, t.runs[l.run]);
      }
    }
  }

  lemma SentStep(s: Runner, l: Label)
    requires Can(s, l) && s.events.buffered <= 64
    ensures var t := Next(s, l);
      && t.events.buffered <= 64
      && TotalSent(t.runs) + s.events.buffered ==
           TotalSent(s.runs) + t.events.buffered + if l.Receive? then 1 else 0
  {
    if l.Move? {
      SentByMove(s, l.run, l.act);
    } else {
      SentByCall(s, l);
    }
  }

  lemma {:induction false} SentAlways(s: Runner, labels: seq<Label>, t: Runner)
    requires Reaches(s, labels, t) && s.events.buffered <= 64
    ensures t.events.buffered <= 64
    ensures TotalSent(t.runs) + s.events.buffered == TotalSent(s.runs) + t.events.buffered + Received(labels)
    decreases |labels|
  {
    if labels != [] {
      SentStep(s, labels[0]);
      SentAlways(Next(s, labels[0]), labels[1..], t);
    }
  }

  /** What was sent has been received or is still in the channel, which never holds more than 64 events. */
  lemma NothingIsLost(labels: seq<Label>, s: Runner)
    requires Reaches(IDLE, labels, s)
    ensures TotalSent(s.runs) == Received(labels) + s.events.buffered
    ensures s.events.buffered <= 64
  {
    SentAlways(IDLE, labels, s);
  }
}
