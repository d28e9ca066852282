/**
 The runner never gets stuck and never runs on for ever: with its events read, its
 commands finite and its questions answered, every run that was started comes to an end.
*/
module RunnerProgress {
  import opened Wrappers
  import opened TuiRunner
  import opened RunnerSafety
  import opened RunnerEvents

  // ---------------------------------------------------------------------------
  // No deadlock.
  // ---------------------------------------------------------------------------

  /** A label that moves some run on: a move of its own, or the answer it is waiting for. */
  predicate Helps(s: Runner, l: Label) {
    || l.Move?
    || (l.Answer? && IsRun(s, l.run) && s.runs[l.run].question == Some(l.q))
  }

  ghost predicate Ready(s: Runner) {
    Safe(s) && QuestionsSound(s) && HasRoom(s.events)
  }

  /** A run that holds the lock, or holds nothing and waits for nothing, can always go on. */
  lemma FreeRunMoves(s: Runner, i: nat) returns (l: Label)
    requires Ready(s) && IsRun(s, i)
    requires var p := s.runs[i].phase;
      !p.Ended? && !p.WaitAfter? && !p.WaitSlot? && !p.WaitLock? && !p.Announced?
    ensures Can(s, l) && Helps(s, l) && l.run == i
  {
    assert QuestionAt(s, s.runs[i]);
    match s.runs[i].phase
    case EmitQueued => l := Move(i, Send);
    case EmitRunning => l := Move(i, Send);
    case EmitQuestion(_) => l := Move(i, Send);
    case EmitDone(_) => l := Move(i, Send);
    case HaveSlot => l := Move(i, CheckSlot);
    case HaveLock => l := Move(i, CheckLock);
    case Executing => l := Move(i, Finish);
    case AwaitAnswer(q) => l := if s.runs[i].answer.Some? then Move(i, ReadAnswer) else Answer(i, q, false);
    case Returned => l := Move(i, Forget);
    case Unlocking => l := Move(i, Unlock);
    case FreeSlot => l := Move(i, LeaveSlot);
    case CloseDone => l := Move(i, Close);
  }

  /** Whoever waits for the lock waits for a run that can go on. */
  lemma LockWaiterHelped(s: Runner, i: nat) returns (l: Label)
    requires Ready(s) && IsRun(s, i) && (s.runs[i].phase.WaitLock? || s.runs[i].phase.Announced?)
    ensures Can(s, l) && Helps(s, l) && HoldsSlot(s.runs[l.run].phase)
  {
    assert LockAt(s, i);
    if s.config.writer.Some? {
      assert LockAt(s, s.config.writer.value);
      l := FreeRunMoves(s, s.config.writer.value);
    } else if s.config.announced.Some? {
      var w := s.config.announced.value;
      assert LockAt(s, w);
      if s.config.readers == {} {
        l := Move(w, Lock);
      } else {
        var k :| k in s.config.readers;
        assert LockAt(s, k);
        l := FreeRunMoves(s, k);
      }
    } else {
      l := if s.runs[i].job.exclusive then Move(i, Announce) else Move(i, RLock);
    }
  }

  lemma {:induction false} SomeoneHolds(runs: seq<Run>) returns (i: nat)
    requires Held(runs) > 0
    ensures i < |runs| && HoldsSlot(runs[i].phase)
  {
    var n := |runs| - 1;
    if HoldsSlot(runs[n].phase) {
      i := n;
    } else {
      i := SomeoneHolds(runs[..n]);
    }
  }

  /** Whoever waits for a slot waits for a run that holds one; and waiting on a predecessor holds none. */
  lemma SlotWaiterHelped(s: Runner, i: nat) returns (l: Label)
    requires Ready(s) && IsRun(s, i) && s.runs[i].phase.WaitSlot?
    ensures Can(s, l) && Helps(s, l) && (l.run == i || HoldsSlot(s.runs[l.run].phase))
  {
    if s.slots < RUNNER_SLOTS {
      l := Move(i, TakeSlot);
    } else {
      var k := SomeoneHolds(s.runs);
      if s.runs[k].phase.WaitLock? || s.runs[k].phase.Announced? {
        l := LockWaiterHelped(s, k);
      } else {
        l := FreeRunMoves(s, k);
      }
    }
  }

  /** A run that does not wait for a predecessor goes on itself, or waits for one that holds a slot. */
  lemma PastWaitHelped(s: Runner, i: nat) returns (l: Label)
    requires Ready(s) && IsRun(s, i) && !s.runs[i].phase.Ended? && !s.runs[i].phase.WaitAfter?
    ensures Can(s, l) && Helps(s, l) && (l.run == i || HoldsSlot(s.runs[l.run].phase))
  {
    var p := s.runs[i].phase;
    if p.WaitSlot? {
      l := SlotWaiterHelped(s, i);
    } else if p.WaitLock? || p.Announced? {
      l := LockWaiterHelped(s, i);
    } else {
      l := FreeRunMoves(s, i);
    }
  }

  lemma {:induction false} RunHelped(s: Runner, i: nat) returns (l: Label)
    requires Ready(s) && IsRun(s, i) && !s.runs[i].phase.Ended?
    ensures Can(s, l) && Helps(s, l)
    decreases i
  {
    if !s.runs[i].phase.WaitAfter? {
      l := PastWaitHelped(s, i);
    } else {
      assert ChainAt(s, i);
      if HasEnded(s, s.runs[i].job.after) {
        l := Move(i, AfterDone);
      } else {
        l := RunHelped(s, s.runs[i].job.after.value);
      }
    }
  }

  /** No reachable state with an unfinished run and room for an event is stuck. */
  lemma NeverStuck(labels: seq<Label>, s: Runner, i: nat)
    requires Reaches(IDLE, labels, s) && HasRoom(s.events)
    requires IsRun(s, i) && !s.runs[i].phase.Ended?
    ensures exists l :: Can(s, l) && Helps(s, l)
  {
    ReachableIsSafe(labels, s);
    ReachableIsWitnessed(labels, s);
    var l := RunHelped(s, i);
  }

  // ---------------------------------------------------------------------------
  // Everything ends.
  // ---------------------------------------------------------------------------

  function StepsLeft(p: Phase): nat {
    match p
    case Ended => 0
    case CloseDone => 1
    case FreeSlot => 2
    case EmitDone(_) => 3
    case Unlocking => 4
    case Returned => 5
    case Executing => 6
    case AwaitAnswer(_) => 7
    case EmitQuestion(_) => 8
    case HaveLock => 9
    case Announced => 10
    case WaitLock => 11
    case EmitRunning => 12
    case HaveSlot => 13
    case WaitSlot => 14
    case WaitAfter => 15
    case EmitQueued => 16
  }

  /** A bound on what is still to happen to a run: steps, one retry per send, one answer per question. */
  function Left(r: Run): nat {
    2 * StepsLeft(r.phase) + (if r.blocked then 0 else 1) + (if r.question.Some? then 1 else 0) + 8 * r.work
  }

  function TotalLeft(runs: seq<Run>): nat {
    if runs == [] then 0 else TotalLeft(runs[..|runs| - 1]) + Left(runs[|runs| - 1])
  }

  lemma {:induction false} TotalAfterPut(runs: seq<Run>, i: nat, r: Run)
    requires i < |runs|
    ensures TotalLeft(runs[i := r]) == TotalLeft(runs) - Left(runs[i]) + Left(r)
  {
    var n := |runs| - 1;
    if i < n {
      assert runs[i := r][..n] == runs[..n][i := r];
      TotalAfterPut(runs[..n], i, r);
    } else {
      assert runs[i := r][..n] == runs[..n];
    }
  }

  /** Between sends no run is blocked; asked of every state below. */
  ghost predicate BlockedOnlySending(s: Runner) {
    forall i | 0 <= i < |s.runs| :: s.runs[i].blocked ==> Emitting(s.runs[i].phase)
  }

  lemma BlockedKept(s: Runner, l: Label)
    requires BlockedOnlySending(s) && Can(s, l)
    ensures BlockedOnlySending(Next(s, l))
  {
  }

  lemma MoveUsesUp(s: Runner, i: nat, act: Act)
    requires IsRun(s, i) && CanMove(s, i, act) && QuestionAt(s, s.runs[i])
    requires s.runs[i].blocked ==> Emitting(s.runs[i].phase)
    ensures Left(RunAfter(s, i, act)) < Left(s.runs[i])
  {
  }

  lemma HelpUsesUp(s: Runner, l: Label)
    requires Can(s, l) && Helps(s, l) && QuestionsSound(s) && BlockedOnlySending(s)
    ensures TotalLeft(Next(s, l).runs) < TotalLeft(s.runs)
  {
    assert QuestionAt(s, s.runs[l.run]);
    if l.Move? {
      MoveUsesUp(s, l.run, l.act);
      TotalAfterPut(s.runs, l.run, RunAfter(s, l.run, l.act));
    } else {
      TotalAfterPut(s.runs, l.run, Next(s, l).runs[l.run]);
    }
  }

  /** Nothing but a start gives a run more to do. */
  lemma CallAddsNothing(s: Runner, l: Label)
    requires !l.Move? && CanCall(s, l) && !l.Start?
    ensures TotalLeft(Called(s, l).runs) <= TotalLeft(s.runs)
  {
    var t := Called(s, l);
    if t.runs != s.runs {
      TotalAfterPut(s.runs, l.run, t.runs[l.run]);
    }
  }

  /** How many of the labels moved a run on. */
  function Helped(s: Runner, labels: seq<Label>): nat
    decreases |labels|
  {
    if labels == [] || !Can(s, labels[0]) then 0
    else (if Helps(s, labels[0]) then 1 else 0) + Helped(Next(s, labels[0]), labels[1..])
  }

  /** Without new starts, no history moves runs on more often than there was left to do. */
  lemma {:induction false} HistoriesAreBounded(s: Runner, labels: seq<Label>, t: Runner)
    requires QuestionsSound(s) && BlockedOnlySending(s) && Reaches(s, labels, t)
    requires forall k | 0 <= k < |labels| :: !labels[k].Start?
    ensures Helped(s, labels) + TotalLeft(t.runs) <= TotalLeft(s.runs)
    decreases |labels|
  {
    if labels != [] {
      var u := Next(s, labels[0]);
      assert !labels[0].Start?;
      forall k | 0 <= k < |labels[1..]| ensures !labels[1..][k].Start? {
        assert !labels[k + 1].Start?;
      }
      if Helps(s, labels[0]) {
        HelpUsesUp(s, labels[0]);
      } else {
        CallAddsNothing(s, labels[0]);
      }
      BlockedKept(s, labels[0]);
      if labels[0].Move? {
        QuestionsKeptByMove(s, labels[0].run, labels[0].act);
      } else {
        QuestionsKeptByCall(s, labels[0]);
      }
      HistoriesAreBounded(u, labels[1..], t);
    }
  }

  ghost predicate AllEnded(s: Runner) {
    forall i | 0 <= i < |s.runs| :: s.runs[i].phase.Ended?
  }

  ghost predicate Good(s: Runner) {
    Safe(s) && QuestionsSound(s) && BlockedOnlySending(s)
  }

  lemma GoodStep(s: Runner, l: Label)
    requires Good(s) && Can(s, l)
    ensures Good(Next(s, l))
  {
    SafeStep(s, l);
    BlockedKept(s, l);
    if l.Move? {
      QuestionsKeptByMove(s, l.run, l.act);
    } else {
      QuestionsKeptByCall(s, l);
    }
  }

  lemma {:induction false} GoodAlways(s: Runner, labels: seq<Label>, t: Runner)
    requires Good(s) && Reaches(s, labels, t)
    ensures Good(t)
    decreases |labels|
  {
    if labels != [] {
      GoodStep(s, labels[0]);
      GoodAlways(Next(s, labels[0]), labels[1..], t);
    }
  }

  /** From any reachable state there is a way on, with no cancel and no shutdown in it, to where every run is over. */
  lemma {:induction false} AllRunsEnd(s: Runner) returns (labels: seq<Label>, t: Runner)
    requires Good(s)
    ensures Reaches(s, labels, t) && AllEnded(t)
    ensures forall k | 0 <= k < |labels| :: labels[k].Receive? || labels[k].Move? || labels[k].Answer?
    decreases TotalLeft(s.runs), s.events.buffered
  {
    if AllEnded(s) {
      labels, t := [], s;
    } else {
      var l: Label;
      if HasRoom(s.events) {
        var i: nat :| i < |s.runs| && !s.runs[i].phase.Ended?;
        l := RunHelped(s, i);
        HelpUsesUp(s, l);
      } else {
        l := Receive;
      }
      GoodStep(s, l);
      var rest;
      rest, t := AllRunsEnd(Next(s, l));
      labels := [l] + rest;
      assert labels[1..] == rest;
    }
  }

  /** So finitely many starts, whatever happened meanwhile, can always all be brought to an end. */
  lemma {:induction false} EveryStartCanEnd(before: seq<Label>, s: Runner) returns (labels: seq<Label>, t: Runner)
    requires Reaches(IDLE, before, s)
    ensures Reaches(s, labels, t) && AllEnded(t)
    ensures forall k | 0 <= k < |labels| :: labels[k].Receive? || labels[k].Move? || labels[k].Answer?
  {
    GoodAlways(IDLE, before, s);
    labels, t := AllRunsEnd(s);
  }
}
