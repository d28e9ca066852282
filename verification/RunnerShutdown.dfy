/**
 Shutting down waits for nobody outside: once the runner is stopped, its runs end by their
 own moves, with no event read and no question answered.
*/
module RunnerShutdown {
  import opened Wrappers
  import opened TuiRunner
  import opened RunnerSafety
  import opened RunnerEvents
  import opened RunnerProgress

  ghost predicate Stopping(s: Runner) {
    Good(s) && s.stopped
  }

  /** A send finds room, or finds the buffer full and gives up. */
  function Emit(s: Runner, i: nat): Act
    requires IsRun(s, i)
  {
    if HasRoom(s.events) then Send else if s.runs[i].blocked then GiveUp else Block
  }

  /** A run that does not wait for the lock moves on its own. */
  lemma StoppedRunMoves(s: Runner, i: nat) returns (act: Act)
    requires Stopping(s) && IsRun(s, i)
    requires var p := s.runs[i].phase; !p.Ended? && !p.WaitLock? && !p.Announced?
    ensures CanMove(s, i, act)
  {
    match s.runs[i].phase
    case EmitQueued => act := Emit(s, i);
    case EmitRunning => act := Emit(s, i);
    case EmitQuestion(_) => act := Emit(s, i);
    case EmitDone(_) => act := Emit(s, i);
    case WaitAfter => act := Interrupt;
    case WaitSlot => act := Interrupt;
    case HaveSlot => act := CheckSlot;
    case HaveLock => act := CheckLock;
    case Executing => act := Finish;
    case AwaitAnswer(_) => act := AskInterrupted;
    case Returned => act := Forget;
    case Unlocking => act := Unlock;
    case FreeSlot => act := LeaveSlot;
    case CloseDone => act := Close;
  }

  /** Whoever waits for the lock gets it, or waits for a run that moves on its own. */
  lemma StoppedHelped(s: Runner, i: nat) returns (k: nat, act: Act)
    requires Stopping(s) && IsRun(s, i) && !s.runs[i].phase.Ended?
    ensures IsRun(s, k) && CanMove(s, k, act)
  {
    assert LockAt(s, i);
    k := i;
    if !s.runs[i].phase.WaitLock? && !s.runs[i].phase.Announced? {
      act := StoppedRunMoves(s, i);
    } else if s.config.writer.Some? {
      k := s.config.writer.value;
      assert LockAt(s, k);
      act := StoppedRunMoves(s, k);
    } else if s.config.announced.None? {
      act := if s.runs[i].job.exclusive then Announce else RLock;
    } else if s.config.readers == {} {
      k := s.config.announced.value;
      assert LockAt(s, k);
      act := Lock;
    } else {
      k :| k in s.config.readers;
      assert LockAt(s, k);
      act := StoppedRunMoves(s, k);
    }
  }

  /** The runs' own moves, and nothing from outside. */
  ghost predicate OwnMoves(labels: seq<Label>) {
    forall n | 0 <= n < |labels| :: labels[n].Move?
  }

  lemma {:induction false} StoppedRunsEnd(s: Runner) returns (labels: seq<Label>, t: Runner)
    requires Stopping(s)
    ensures Reaches(s, labels, t) && OwnMoves(labels) && AllEnded(t)
    ensures t.closed == s.closed && t.stopped && t.events.closed == s.events.closed
    decreases TotalLeft(s.runs)
  {
    if AllEnded(s) {
      labels, t := [], s;
    } else {
      var i: nat :| i < |s.runs| && !s.runs[i].phase.Ended?;
      var k, act := StoppedHelped(s, i);
      var l := Move(k, act);
      HelpUsesUp(s, l);
      GoodStep(s, l);
      var rest;
      rest, t := StoppedRunsEnd(Next(s, l));
      labels := [l] + rest;
      assert labels[1..] == rest;
    }
  }

  /**
   From any reachable state in which the runner is stopped, whatever is buffered, queued or
   asked, its runs end by themselves; and then the Close that stopped it can return.
  */
  lemma CloseNeedsNoReader(before: seq<Label>, s: Runner) returns (labels: seq<Label>, t: Runner)
    requires Reaches(IDLE, before, s) && s.stopped
    ensures Reaches(s, labels, t) && OwnMoves(labels) && AllEnded(t)
    ensures s.closed && !s.events.closed ==> Can(t, CloseEvents)
  {
    GoodAlways(IDLE, before, s);
    labels, t := StoppedRunsEnd(s);
  }

  /** And there is no way to get stuck: in such a state some run can always move. */
  lemma NeverStuckStopping(before: seq<Label>, s: Runner)
    requires Reaches(IDLE, before, s) && s.stopped && !AllEnded(s)
    ensures exists k, act :: IsRun(s, k) && CanMove(s, k, act)
  {
    GoodAlways(IDLE, before, s);
    var i: nat :| i < |s.runs| && !s.runs[i].phase.Ended?;
    var k, act := StoppedHelped(s, i);
  }
}
