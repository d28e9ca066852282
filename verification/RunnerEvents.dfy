/**
 What the UI sees and says: the events of each run, its questions and their answers, and
 what a cancel forbids.
*/
module RunnerEvents {
  import opened Wrappers
  import opened TuiRunner

  // ---------------------------------------------------------------------------
  // The events of one run.
  // ---------------------------------------------------------------------------

  /** How much of its story a run's events have told. */
  datatype Told = Nothing | OfQueued | OfRunning | OfEnd | Garbled

  function Tell(told: Told, e: Kind): Told {
    match (told, e)
    case (Nothing, Queued) => OfQueued
    case (OfQueued, Running) => OfRunning
    case (OfRunning, Question(_)) => OfRunning
    case (OfRunning, Chunk) => OfRunning
    case (OfQueued, Done) => OfEnd
    case (OfRunning, Done) => OfEnd
    case _ => Garbled
  }

  function Story(sent: seq<Kind>): Told {
    if sent == [] then Nothing else Tell(Story(sent[..|sent| - 1]), sent[|sent| - 1])
  }

  /** What a run in phase p has told so far, while nothing has been dropped. */
  ghost predicate Fits(p: Phase, told: Told) {
    match p
    case EmitQueued => told.Nothing?
    case WaitAfter => told.OfQueued?
    case WaitSlot => told.OfQueued?
    case HaveSlot => told.OfQueued?
    case EmitRunning => told.OfQueued?
    case EmitDone(slot) => told.OfQueued? || (slot && told.OfRunning?)
    case FreeSlot => told.OfEnd?
    case CloseDone => told.OfEnd?
    case Ended => told.OfEnd?
    case _ => told.OfRunning?
  }

  ghost predicate StoriesSound(s: Runner) {
    !s.stopped ==> forall i | 0 <= i < |s.runs| :: Fits(s.runs[i].phase, Story(s.runs[i].sent))
  }

  /** What a move adds to a run's story. */
  function ToldAfter(s: Runner, i: nat, act: Act, told: Told): Told
    requires IsRun(s, i) && CanMove(s, i, act)
  {
    if act.Send? then Tell(told, Message(s.runs[i].phase))
    else if act.Flush? && HasRoom(s.events) then Tell(told, Chunk)
    else told
  }

  lemma MoveFits(s: Runner, i: nat, act: Act, told: Told)
    requires IsRun(s, i) && CanMove(s, i, act) && !s.stopped
    requires Fits(s.runs[i].phase, told)
    ensures Fits(PhaseAfter(s, i, act), ToldAfter(s, i, act, told))
  {
  }

  lemma StoriesKept(s: Runner, l: Label)
    requires StoriesSound(s) && Can(s, l)
    ensures StoriesSound(Next(s, l))
  {
    if !s.stopped {
      if l.Move? {
        MoveFits(s, l.run, l.act, Story(s.runs[l.run].sent));
      }
    }
  }

  /** A whole story: queued and done, or queued, running, what the command had to say, and done. */
  ghost predicate WholeStory(sent: seq<Kind>) {
    || sent == [Queued, Done]
    || (&& |sent| >= 3 && sent[0] == Queued && sent[1] == Running && sent[|sent| - 1] == Done
        && forall k | 2 <= k < |sent| - 1 :: sent[k].Question? || sent[k].Chunk?)
  }

  ghost predicate Underway(sent: seq<Kind>) {
    && |sent| >= 2 && sent[0] == Queued && sent[1] == Running
    && forall k | 2 <= k < |sent| :: sent[k].Question? || sent[k].Chunk?
  }

  lemma {:induction false} EarlyStory(sent: seq<Kind>)
    ensures Story(sent).Nothing? ==> sent == []
    ensures Story(sent).OfQueued? ==> sent == [Queued]
  {
    if sent != [] {
      EarlyStory(sent[..|sent| - 1]);
    }
  }

  lemma {:induction false} MiddleStory(sent: seq<Kind>)
    requires Story(sent).OfRunning?
    ensures Underway(sent)
  {
    var n := |sent| - 1;
    if sent[n].Running? {
      EarlyStory(sent[..n]);
    } else {
      MiddleStory(sent[..n]);
      assert forall k | 0 <= k < n :: sent[..n][k] == sent[k];
    }
  }

  lemma {:induction false} FinishedStory(sent: seq<Kind>)
    requires Story(sent).OfEnd?
    ensures WholeStory(sent)
  {
    var n := |sent| - 1;
    if Story(sent[..n]).OfQueued? {
      EarlyStory(sent[..n]);
      assert sent == sent[..n] + [Done];
    } else {
      MiddleStory(sent[..n]);
      assert forall k | 0 <= k < n :: sent[..n][k] == sent[k];
    }
  }

  /** Later events never undo the order: whatever was dropped in a shutdown, what got through is in order. */
  function Rank(e: Kind): nat {
    match e
    case Queued => 0
    case Running => 1
    case Done => 3
    case _ => 2
  }

  ghost predicate Ordered(sent: seq<Kind>) {
    forall a, b | 0 <= a < b < |sent| ::
      Rank(sent[a]) < Rank(sent[b]) || (Rank(sent[a]) == Rank(sent[b]) == 2)
  }

  /** The rank of the next thing a run in phase p could say. */
  function Level(p: Phase): nat {
    match p
    case EmitQueued => 0
    case WaitAfter => 1
    case WaitSlot => 1
    case HaveSlot => 1
    case EmitRunning => 1
    case EmitDone(_) => 3
    case FreeSlot => 4
    case CloseDone => 4
    case Ended => 4
    case _ => 2
  }

  ghost predicate OrderAt(r: Run) {
    && Ordered(r.sent)
    && forall k | 0 <= k < |r.sent| :: Rank(r.sent[k]) < Level(r.phase) || (Rank(r.sent[k]) == Level(r.phase) == 2)
  }

  lemma OrderKept(s: Runner, i: nat, act: Act)
    requires IsRun(s, i) && CanMove(s, i, act) && OrderAt(s.runs[i])
    ensures OrderAt(RunAfter(s, i, act))
  {
    var r, t := s.runs[i], RunAfter(s, i, act);
    if act.Send? {
    } else if t.sent != r.sent {
    }
  }

  // ---------------------------------------------------------------------------
  // Questions and answers.
  // ---------------------------------------------------------------------------

  predicate Asking(p: Phase) {
    p.EmitQuestion? || p.AwaitAnswer?
  }

  ghost predicate Asked(s: Runner, q: nat) {
    exists k :: 0 <= k < |s.answers| && s.answers[k].0 == q
  }

  /** One run's question: it is open, or its one answer has arrived. */
  ghost predicate QuestionAt(s: Runner, r: Run) {
    && (r.question.Some? ==> Asking(r.phase) && r.question.value == r.phase.q && !Asked(s, r.phase.q))
    && (Asking(r.phase) ==> r.phase.q < s.nextQuestion && (r.question.Some? || r.answer.Some?))
    && (r.answer.Some? ==> Asking(r.phase) && (r.phase.q, r.answer.value) in s.answers)
    && forall q | q in r.yes :: (q, true) in s.answers
  }

  ghost predicate QuestionsSound(s: Runner) {
    && (forall i | 0 <= i < |s.runs| :: QuestionAt(s, s.runs[i]))
    && (forall i, j | 0 <= i < j < |s.runs| && Asking(s.runs[i].phase) && Asking(s.runs[j].phase) ::
          s.runs[i].phase.q != s.runs[j].phase.q)
    && (forall k | 0 <= k < |s.answers| :: s.answers[k].0 < s.nextQuestion)
    && (forall k, m | 0 <= k < m < |s.answers| :: s.answers[k].0 != s.answers[m].0)
  }

  lemma QuestionsKeptByMove(s: Runner, i: nat, act: Act)
    requires QuestionsSound(s) && IsRun(s, i) && CanMove(s, i, act)
    ensures QuestionsSound(Moved(s, i, act))
  {
    var t := Moved(s, i, act);
    assert t.runs[i] == RunAfter(s, i, act) && t.answers == s.answers;
    forall j | 0 <= j < |t.runs| ensures QuestionAt(t, t.runs[j]) {
      assert j != i ==> QuestionAt(s, s.runs[j]);
    }
    forall j | 0 <= j < |t.runs| && j != i && Asking(t.runs[i].phase) && Asking(t.runs[j].phase)
      ensures t.runs[i].phase.q != t.runs[j].phase.q
    {
      assert QuestionAt(s, s.runs[j]);
      assert Asking(s.runs[i].phase) || act.Ask?;
    }
  }

  lemma QuestionsKeptByAnswer(s: Runner, i: nat, q: nat, yes: bool)
    requires QuestionsSound(s)
    ensures QuestionsSound(Called(s, Answer(i, q, yes)))
  {
    var t := Called(s, Answer(i, q, yes));
    if IsRun(s, i) && s.runs[i].question == Some(q) {
      assert QuestionAt(s, s.runs[i]);
      assert t.answers == s.answers + [(q, yes)];
      assert t.answers[|s.answers|] == (q, yes);
      forall j | 0 <= j < |t.runs| ensures QuestionAt(t, t.runs[j]) {
        assert QuestionAt(s, s.runs[j]);
        if j != i && s.runs[j].question.Some? {
          assert s.runs[j].phase.q != q;
        }
      }
      forall k | 0 <= k < |s.answers| ensures s.answers[k].0 != q {
        assert !Asked(s, q);
      }
    }
  }

  lemma QuestionsKeptByCall(s: Runner, l: Label)
    requires QuestionsSound(s) && !l.Move? && CanCall(s, l)
    ensures QuestionsSound(Called(s, l))
  {
    var t := Called(s, l);
    if l.Answer? {
      QuestionsKeptByAnswer(s, l.run, l.q, l.yes);
    } else {
      assert t.answers == s.answers && t.nextQuestion == s.nextQuestion;
      forall j | 0 <= j < |t.runs| ensures QuestionAt(t, t.runs[j]) {
        if j < |s.runs| {
          assert QuestionAt(s, s.runs[j]);
        }
      }
    }
  }

  // ---------------------------------------------------------------------------
  // Shutting down.
  // ---------------------------------------------------------------------------

  /** Once the channel is closed every run is over, and none can start. */
  ghost predicate CloseSound(s: Runner) {
    && (s.events.closed ==> s.closed && s.stopped && forall i | 0 <= i < |s.runs| :: s.runs[i].phase.Ended?)
    && !s.events.late
  }

  lemma CloseKept(s: Runner, l: Label)
    requires CloseSound(s) && Can(s, l)
    ensures CloseSound(Next(s, l))
  {
  }

  // ---------------------------------------------------------------------------
  // Every reachable state.
  // ---------------------------------------------------------------------------

  ghost predicate Witnessed(s: Runner) {
    && StoriesSound(s) && QuestionsSound(s) && CloseSound(s)
    && forall i | 0 <= i < |s.runs| :: OrderAt(s.runs[i])
  }

  lemma ToldStep(s: Runner, l: Label)
    requires Witnessed(s) && Can(s, l)
    ensures Witnessed(Next(s, l))
  {
    StoriesKept(s, l);
    CloseKept(s, l);
    if l.Move? {
      QuestionsKeptByMove(s, l.run, l.act);
      OrderKept(s, l.run, l.act);
    } else {
      QuestionsKeptByCall(s, l);
    }
  }

  lemma {:induction false} ToldAlways(s: Runner, labels: seq<Label>, t: Runner)
    requires Witnessed(s) && Reaches(s, labels, t)
    ensures Witnessed(t)
    decreases |labels|
  {
    if labels != [] {
      ToldStep(s, labels[0]);
      ToldAlways(Next(s, labels[0]), labels[1..], t);
    }
  }

  lemma ReachableIsWitnessed(labels: seq<Label>, s: Runner)
    requires Reaches(IDLE, labels, s)
    ensures Witnessed(s)
  {
    ToldAlways(IDLE, labels, s);
  }

  /** Until shutdown begins, a run that is over has told a whole story and nothing else. */
  lemma EndedRunToldAll(labels: seq<Label>, s: Runner, i: nat)
    requires Reaches(IDLE, labels, s) && !s.stopped && IsRun(s, i)
    ensures s.runs[i].phase.Ended? ==> WholeStory(s.runs[i].sent)
    ensures Commanding(s.runs[i].phase) ==> Underway(s.runs[i].sent)
  {
    ReachableIsWitnessed(labels, s);
    assert Fits(s.runs[i].phase, Story(s.runs[i].sent));
    if s.runs[i].phase.Ended? {
      FinishedStory(s.runs[i].sent);
    } else if Commanding(s.runs[i].phase) {
      MiddleStory(s.runs[i].sent);
    }
  }

  /** Shutdown may drop events, but what the UI does get is still in order, and nothing follows a Done. */
  lemma EventsStayOrdered(labels: seq<Label>, s: Runner, i: nat)
    requires Reaches(IDLE, labels, s) && IsRun(s, i)
    ensures Ordered(s.runs[i].sent)
    ensures forall k | 0 <= k < |s.runs[i].sent| - 1 :: !s.runs[i].sent[k].Done?
  {
    ReachableIsWitnessed(labels, s);
    assert OrderAt(s.runs[i]);
  }

  /** Every question gets at most one answer, and a yes is read only where the UI said yes to that very question. */
  lemma OneAnswerEach(labels: seq<Label>, s: Runner, k: nat, m: nat)
    requires Reaches(IDLE, labels, s)
    requires k < |s.answers| && m < |s.answers| && s.answers[k].0 == s.answers[m].0
    ensures k == m
    ensures forall i, q | 0 <= i < |s.runs| && q in s.runs[i].yes :: (q, true) in s.answers
  {
    ReachableIsWitnessed(labels, s);
    forall i, q | 0 <= i < |s.runs| && q in s.runs[i].yes ensures (q, true) in s.answers {
      assert QuestionAt(s, s.runs[i]);
    }
  }

  /** Nothing is sent on the events channel after it is closed. */
  lemma NoSendAfterClose(labels: seq<Label>, s: Runner)
    requires Reaches(IDLE, labels, s)
    ensures !s.events.late
  {
    ReachableIsWitnessed(labels, s);
  }

  /**
   From the moment a run's context is over, it takes no further yes; and if its command has
   not begun by then, it never begins, whatever it was waiting for.
  */
  lemma {:induction false} InterruptedRunStops(s: Runner, labels: seq<Label>, t: Runner, i: nat)
    requires IsRun(s, i) && Interrupted(s, i) && Reaches(s, labels, t)
    ensures IsRun(t, i) && t.runs[i].yes == s.runs[i].yes && t.runs[i].executed == s.runs[i].executed
    decreases |labels|
  {
    if labels != [] {
      InterruptedRunStops(Next(s, labels[0]), labels[1..], t, i);
    }
  }

  /** Only a run that was let through executes its command: being in it means it was not over when the lock came. */
  lemma {:induction false} CommandingHasExecuted(s: Runner, labels: seq<Label>, t: Runner)
    requires Reaches(s, labels, t)
    requires forall i | 0 <= i < |s.runs| :: Commanding(s.runs[i].phase) ==> s.runs[i].executed
    ensures forall i | 0 <= i < |t.runs| :: Commanding(t.runs[i].phase) ==> t.runs[i].executed
    decreases |labels|
  {
    if labels != [] {
      CommandingHasExecuted(Next(s, labels[0]), labels[1..], t);
    }
  }

  /** A run whose context is over before it was let through is never in its command, however things go on. */
  lemma CancelledNeverExecutes(before: seq<Label>, s: Runner, labels: seq<Label>, t: Runner, i: nat)
    requires Reaches(IDLE, before, s) && IsRun(s, i)
    requires Interrupted(s, i) && !s.runs[i].executed
    requires Reaches(s, labels, t)
    ensures IsRun(t, i) && !t.runs[i].executed && !Commanding(t.runs[i].phase)
  {
    CommandingHasExecuted(IDLE, before, s);
    CommandingHasExecuted(s, labels, t);
    InterruptedRunStops(s, labels, t, i);
  }
}
