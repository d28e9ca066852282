/**
 What no interleaving of starts, cancels, answers and finishes can break: the four slots,
 the exclusion around the config file, and the order of the runs that must run alone.
*/
module RunnerSafety {
  import opened Wrappers
  import opened TuiRunner

  // ---------------------------------------------------------------------------
  // Slots.
  // ---------------------------------------------------------------------------

  function SlotOf(r: Run): nat {
    if HoldsSlot(r.phase) then 1 else 0
  }

  function Held(runs: seq<Run>): nat {
    if runs == [] then 0 else Held(runs[..|runs| - 1]) + SlotOf(runs[|runs| - 1])
  }

  lemma {:induction false} HeldAfterPut(runs: seq<Run>, i: nat, r: Run)
    requires i < |runs|
    ensures Held(runs[i := r]) == Held(runs) - SlotOf(runs[i]) + SlotOf(r)
    ensures Held(runs) >= SlotOf(runs[i])
  {
    var n := |runs| - 1;
    if i < n {
      assert runs[i := r][..n] == runs[..n][i := r];
      HeldAfterPut(runs[..n], i, r);
    } else {
      assert runs[i := r][..n] == runs[..n];
    }
  }

  /** The channel holds one token per run that holds a slot, and never more than four. */
  ghost predicate SlotsSound(s: Runner) {
    s.slots == Held(s.runs) <= RUNNER_SLOTS
  }

  lemma MoveSlots(s: Runner, i: nat, act: Act)
    requires IsRun(s, i) && CanMove(s, i, act)
    requires s.slots >= SlotOf(s.runs[i])
    ensures var t := Moved(s, i, act);
      t.slots == s.slots - SlotOf(s.runs[i]) + SlotOf(t.runs[i]) && (t.slots <= s.slots || t.slots <= RUNNER_SLOTS)
  {
  }

  lemma SlotsKeptByMove(s: Runner, i: nat, act: Act)
    requires SlotsSound(s) && IsRun(s, i) && CanMove(s, i, act)
    ensures SlotsSound(Moved(s, i, act))
  {
    HeldAfterPut(s.runs, i, RunAfter(s, i, act));
    MoveSlots(s, i, act);
  }

  lemma SlotsKeptByCall(s: Runner, l: Label)
    requires SlotsSound(s) && !l.Move? && CanCall(s, l)
    ensures SlotsSound(Called(s, l))
  {
    var t := Called(s, l);
    if t.runs != s.runs {
      if l.Start? {
        assert t.runs[..|s.runs|] == s.runs;
      } else {
        HeldAfterPut(s.runs, l.run, t.runs[l.run]);
      }
    }
  }

  // ---------------------------------------------------------------------------
  // The lock.
  // ---------------------------------------------------------------------------

  predicate Reading(r: Run) {
    InSection(r.phase) && TakesLock(r.job) && !r.job.exclusive
  }

  predicate Writing(r: Run) {
    InSection(r.phase) && r.job.exclusive
  }

  /** The lock's books agree with where run i is. */
  ghost predicate LockAt(s: Runner, i: nat)
    requires IsRun(s, i)
  {
    var r := s.runs[i];
    && (i in s.config.readers <==> Reading(r))
    && (s.config.writer == Some(i) <==> Writing(r))
    && (s.config.announced == Some(i) <==> r.phase.Announced?)
    && (r.phase.WaitLock? ==> TakesLock(r.job))
    && (r.phase.Announced? ==> r.job.exclusive)
  }

  /** They agree everywhere, and a writer has the lock to itself. */
  ghost predicate LockSound(s: Runner) {
    && (forall i | 0 <= i < |s.runs| :: LockAt(s, i))
    && (forall i | i in s.config.readers :: i < |s.runs|)
    && (s.config.writer.Some? ==> s.config.writer.value < |s.runs| && s.config.readers == {})
    && (s.config.announced.Some? ==> s.config.announced.value < |s.runs| && s.config.writer.None?)
  }

  predicate TouchesLock(act: Act) {
    act.Announce? || act.Lock? || act.RLock? || act.Unlock?
  }

  lemma LockMove(s: Runner, i: nat, act: Act)
    requires IsRun(s, i) && CanMove(s, i, act) && TouchesLock(act) && LockSound(s)
    ensures LockSound(Moved(s, i, act))
  {
    var t := Moved(s, i, act);
    assert LockAt(s, i);
    forall j | 0 <= j < |t.runs| ensures LockAt(t, j) {
      assert LockAt(s, j);
    }
  }

  lemma LockKeptByQuietMove(s: Runner, i: nat, act: Act)
    requires IsRun(s, i) && CanMove(s, i, act) && !TouchesLock(act) && LockSound(s)
    ensures LockSound(Moved(s, i, act))
  {
    var t := Moved(s, i, act);
    assert LockAt(s, i);
    forall j | 0 <= j < |t.runs| ensures LockAt(t, j) {
      assert LockAt(s, j);
    }
  }

  lemma LockKeptByMove(s: Runner, i: nat, act: Act)
    requires LockSound(s) && IsRun(s, i) && CanMove(s, i, act)
    ensures LockSound(Moved(s, i, act))
  {
    if TouchesLock(act) {
      LockMove(s, i, act);
    } else {
      LockKeptByQuietMove(s, i, act);
    }
  }

  lemma LockKeptByCall(s: Runner, l: Label)
    requires LockSound(s) && !l.Move? && CanCall(s, l)
    ensures LockSound(Called(s, l))
  {
    var t := Called(s, l);
    forall j | 0 <= j < |s.runs| ensures LockAt(t, j) {
      assert LockAt(s, j);
    }
  }

  // ---------------------------------------------------------------------------
  // The chain of exclusive runs.
  // ---------------------------------------------------------------------------

  /** The last exclusive run started before run n. */
  function LastExclusive(runs: seq<Run>, n: nat): (k: Option<nat>)
    requires n <= |runs|
    ensures k.Some? ==> k.value < n && runs[k.value].job.exclusive
    ensures forall m | (if k.Some? then k.value + 1 else 0) <= m < n :: !runs[m].job.exclusive
  {
    if n == 0 then None
    else if runs[n - 1].job.exclusive then Some(n - 1)
    else LastExclusive(runs, n - 1)
  }

  predicate PastWait(p: Phase) {
    !p.EmitQueued? && !p.WaitAfter?
  }

  /** Run j waits for the exclusive run before it, and is past that wait only when that run is over or j gave up. */
  ghost predicate ChainAt(s: Runner, j: nat)
    requires IsRun(s, j)
  {
    var r := s.runs[j];
    && r.job.after == (if r.job.exclusive then LastExclusive(s.runs, j) else None)
    && (r.job.rewritesConfig ==> r.job.exclusive)
    && (PastWait(r.phase) && !r.skipped ==> HasEnded(s, r.job.after))
    && (r.skipped ==> r.phase == EmitDone(false) || r.phase.CloseDone? || r.phase.Ended?)
  }

  ghost predicate ChainSound(s: Runner) {
    && s.lastExclusive == LastExclusive(s.runs, |s.runs|)
    && forall j | 0 <= j < |s.runs| :: ChainAt(s, j)
  }

  lemma SameJobsSameLast(a: seq<Run>, b: seq<Run>, n: nat)
    requires n <= |a| && n <= |b|
    requires forall k | 0 <= k < n :: a[k].job == b[k].job
    ensures LastExclusive(a, n) == LastExclusive(b, n)
  {
  }

  /** Later states know of every earlier run, with the job it was given, and what ended has ended. */
  ghost predicate Extends(s: Runner, t: Runner) {
    && |s.runs| <= |t.runs|
    && forall k | 0 <= k < |s.runs| ::
         && t.runs[k].job == s.runs[k].job
         && (s.runs[k].phase.Ended? ==> t.runs[k].phase.Ended?)
         && (s.runs[k].skipped ==> t.runs[k].skipped)
         && (s.runs[k].executed ==> t.runs[k].executed)
  }

  lemma MoveExtends(s: Runner, i: nat, act: Act)
    requires IsRun(s, i) && CanMove(s, i, act)
    ensures Extends(s, Moved(s, i, act))
  {
  }

  lemma CallExtends(s: Runner, l: Label)
    requires !l.Move? && CanCall(s, l)
    ensures Extends(s, Called(s, l))
  {
  }

  lemma {:induction false} LinksStay(s: Runner, labels: seq<Label>, t: Runner)
    requires Reaches(s, labels, t)
    ensures |s.runs| <= |t.runs| && forall k | 0 <= k < |s.runs| :: t.runs[k].job == s.runs[k].job
    decreases |labels|
  {
    if labels != [] {
      if labels[0].Move? {
        MoveExtends(s, labels[0].run, labels[0].act);
      } else {
        CallExtends(s, labels[0]);
      }
      LinksStay(Next(s, labels[0]), labels[1..], t);
    }
  }

  lemma ChainAtMover(s: Runner, i: nat, act: Act)
    requires IsRun(s, i) && CanMove(s, i, act) && ChainAt(s, i)
    requires s.runs[i].job.after.Some? ==> s.runs[i].job.after.value < i
    ensures ChainAt(Moved(s, i, act), i)
  {
    var t := Moved(s, i, act);
    SameJobsSameLast(s.runs, t.runs, i);
  }

  /** A run that did not move keeps its place, as what it waits for can only have ended. */
  lemma ChainStays(s: Runner, t: Runner, j: nat)
    requires Extends(s, t) && IsRun(s, j) && ChainAt(s, j)
    requires t.runs[j].phase == s.runs[j].phase && t.runs[j].skipped == s.runs[j].skipped
    ensures ChainAt(t, j)
  {
  }

  lemma ChainKeptByMove(s: Runner, i: nat, act: Act)
    requires ChainSound(s) && IsRun(s, i) && CanMove(s, i, act)
    ensures ChainSound(Moved(s, i, act))
  {
    var t := Moved(s, i, act);
    MoveExtends(s, i, act);
    SameJobsSameLast(s.runs, t.runs, |s.runs|);
    forall j | 0 <= j < |s.runs| ensures ChainAt(t, j) {
      assert ChainAt(s, j);
      if i == j {
        ChainAtMover(s, j, act);
      } else {
        ChainStays(s, t, j);
      }
    }
  }

  lemma ChainKeptByStart(s: Runner, exclusive: bool, rewrites: Rewrites, stream: bool, work: nat)
    requires ChainSound(s) && !s.closed
    ensures ChainSound(Called(s, Start(exclusive, rewrites, stream, work)))
  {
    var l := Start(exclusive, rewrites, stream, work);
    var t := Called(s, l);
    CallExtends(s, l);
    SameJobsSameLast(s.runs, t.runs, |s.runs|);
    forall j | 0 <= j < |s.runs| ensures ChainAt(t, j) {
      assert ChainAt(s, j);
      ChainStays(s, t, j);
    }
    assert ChainAt(t, |s.runs|);
  }

  lemma ChainKeptByCall(s: Runner, l: Label)
    requires ChainSound(s) && !l.Move? && CanCall(s, l)
    ensures ChainSound(Called(s, l))
  {
    if l.Start? {
      if !s.closed {
        ChainKeptByStart(s, l.exclusive, l.rewrites, l.stream, l.work);
      }
    } else {
      var t := Called(s, l);
      CallExtends(s, l);
      SameJobsSameLast(s.runs, t.runs, |s.runs|);
      forall j | 0 <= j < |s.runs| ensures ChainAt(t, j) {
        assert ChainAt(s, j);
        ChainStays(s, t, j);
      }
    }
  }

  // ---------------------------------------------------------------------------
  // Every reachable state.
  // ---------------------------------------------------------------------------

  ghost predicate Safe(s: Runner) {
    SlotsSound(s) && LockSound(s) && ChainSound(s)
  }

  lemma SafeStep(s: Runner, l: Label)
    requires Safe(s) && Can(s, l)
    ensures Safe(Next(s, l))
  {
    if l.Move? {
      SlotsKeptByMove(s, l.run, l.act);
      LockKeptByMove(s, l.run, l.act);
      ChainKeptByMove(s, l.run, l.act);
    } else {
      SlotsKeptByCall(s, l);
      LockKeptByCall(s, l);
      ChainKeptByCall(s, l);
    }
  }

  lemma {:induction false} SafeAlways(s: Runner, labels: seq<Label>, t: Runner)
    requires Safe(s) && Reaches(s, labels, t)
    ensures Safe(t)
    decreases |labels|
  {
    if labels != [] {
      SafeStep(s, labels[0]);
      SafeAlways(Next(s, labels[0]), labels[1..], t);
    }
  }

  lemma ReachableIsSafe(labels: seq<Label>, s: Runner)
    requires Reaches(IDLE, labels, s)
    ensures Safe(s)
  {
    SafeAlways(IDLE, labels, s);
  }

  /** At most four runs hold a slot, and a run that waits for one gets it whenever fewer do. */
  lemma AtMostFour(labels: seq<Label>, s: Runner)
    requires Reaches(IDLE, labels, s)
    ensures Held(s.runs) == s.slots <= 4
    ensures forall i: nat | IsRun(s, i) && s.runs[i].phase.WaitSlot? :: CanMove(s, i, TakeSlot) <==> Held(s.runs) < 4
  {
    ReachableIsSafe(labels, s);
  }

  /**
   While an exclusive run is in its section, from getting the lock until it gives it back,
   the only other runs in theirs are streamed ones that take no lock at all.
  */
  lemma ExclusiveRunsAlone(labels: seq<Label>, s: Runner, i: nat, j: nat)
    requires Reaches(IDLE, labels, s)
    requires IsRun(s, i) && IsRun(s, j) && i != j
    requires s.runs[i].job.exclusive && InSection(s.runs[i].phase) && InSection(s.runs[j].phase)
    ensures s.runs[j].job.stream && !s.runs[j].job.exclusive
  {
    ReachableIsSafe(labels, s);
    assert LockAt(s, i) && LockAt(s, j);
  }

  /** A run past its wait has every earlier exclusive run behind it, up to one that gave up waiting. */
  lemma {:induction false} EarlierOnesEnded(s: Runner, i: nat, j: nat)
    requires ChainSound(s) && i < j && IsRun(s, j)
    requires s.runs[i].job.exclusive && s.runs[j].job.exclusive
    requires PastWait(s.runs[j].phase)
    requires forall k | i < k <= j && s.runs[k].job.exclusive :: !s.runs[k].skipped
    ensures s.runs[i].phase.Ended?
    decreases j
  {
    assert ChainAt(s, j);
    var k := s.runs[j].job.after.value;
    assert s.runs[k].phase.Ended?;
    if k != i {
      EarlierOnesEnded(s, i, k);
    }
  }

  /**
   Exclusive runs take their turns in the order they were started: when one gets past its
   wait, each one before it is over, down to its last event. Only an exclusive run between
   the two that was cancelled while it waited can break this.
  */
  lemma ExclusiveRunsInOrder(labels: seq<Label>, s: Runner, i: nat, j: nat)
    requires Reaches(IDLE, labels, s)
    requires i < j && IsRun(s, j) && s.runs[i].job.exclusive && s.runs[j].job.exclusive
    requires PastWait(s.runs[j].phase) && !s.runs[j].skipped && !s.runs[i].phase.Ended?
    ensures exists k :: i < k < j && s.runs[k].job.exclusive && s.runs[k].skipped
  {
    ReachableIsSafe(labels, s);
    if forall k | i < k < j && s.runs[k].job.exclusive :: !s.runs[k].skipped {
      EarlierOnesEnded(s, i, j);
    }
  }

  // ---------------------------------------------------------------------------
  // The order is not unconditional.
  // ---------------------------------------------------------------------------

  lemma {:induction false} ReachesMore(s: Runner, labels: seq<Label>, t: Runner, l: Label)
    requires Reaches(s, labels, t) && Can(t, l)
    ensures Reaches(s, labels + [l], Next(t, l))
    decreases |labels|
  {
    if labels == [] {
      assert (labels + [l])[1..] == [];
    } else {
      assert (labels + [l])[1..] == labels[1..] + [l];
      ReachesMore(Next(s, labels[0]), labels[1..], t, l);
    }
  }

  lemma {:induction false} ReachesOn(s: Runner, a: seq<Label>, t: Runner, b: seq<Label>, u: Runner)
    requires Reaches(s, a, t) && Reaches(t, b, u)
    ensures Reaches(s, a + b, u)
    decreases |a|
  {
    if a == [] {
      assert a + b == b;
    } else {
      ReachesOn(Next(s, a[0]), a[1..], t, b, u);
      assert (a + b)[0] == a[0] && (a + b)[1..] == a[1..] + b;
    }
  }

  /** Is executing, alone by the lock, while an earlier exclusive run has not got that far. */
  ghost predicate Overtakes(s: Runner, j: nat, i: nat) {
    && i < j < |s.runs| && s.runs[i].job.exclusive && s.runs[j].job.exclusive
    && s.runs[j].phase.Executing? && s.runs[i].phase.WaitSlot?
  }

  /** Nothing in the way of a run: no slot taken, no lock held, room for its events. */
  ghost predicate Quiet(s: Runner, sent: nat) {
    && s.slots == 0 && s.config == RWLock({}, None, None) && s.events.buffered == sent
    && !s.stopped && !s.closed
  }

  ghost predicate ThreeInLine(s: Runner, last: Phase) {
    && |s.runs| == 3 && (forall i | 0 <= i < 3 :: s.runs[i].job.exclusive)
    && s.runs[1].job.after == Some(0) && s.runs[2].job.after == Some(1)
    && s.runs[0].phase.WaitSlot? && s.runs[2].phase == last && !s.runs[2].cancelled
  }

  lemma LineUp() returns (labels: seq<Label>, s: Runner)
    ensures Reaches(IDLE, labels, s) && Quiet(s, 3) && ThreeInLine(s, WaitAfter)
      && s.runs[1].phase.WaitAfter?
  {
    labels, s := [], IDLE;
    labels, s := Do(labels, s, Start(true, RewritesNothing, false, 0));
    labels, s := Do(labels, s, Start(true, RewritesNothing, false, 0));
    labels, s := Do(labels, s, Start(true, RewritesNothing, false, 0));
    labels, s := Do(labels, s, Move(0, Send));
    labels, s := Do(labels, s, Move(1, Send));
    labels, s := Do(labels, s, Move(2, Send));
  }

  lemma MiddleGivesUp() returns (labels: seq<Label>, s: Runner)
    ensures Reaches(IDLE, labels, s) && Quiet(s, 3) && ThreeInLine(s, WaitAfter)
      && s.runs[1].phase == EmitDone(false)
  {
    labels, s := LineUp();
    labels, s := Do(labels, s, Cancel(1));
    labels, s := Do(labels, s, Move(1, Interrupt));
  }

  lemma CancelMiddle() returns (labels: seq<Label>, s: Runner)
    ensures Reaches(IDLE, labels, s) && Quiet(s, 4) && ThreeInLine(s, WaitAfter) && s.runs[1].phase.Ended?
  {
    labels, s := MiddleGivesUp();
    labels, s := Do(labels, s, Move(1, Send));
    labels, s := Do(labels, s, Move(1, Close));
  }

  lemma LastGoesAhead() returns (labels: seq<Label>, s: Runner)
    ensures Reaches(IDLE, labels, s) && ThreeInLine(s, WaitLock)
    ensures s.config == RWLock({}, None, None) && !s.stopped
  {
    labels, s := CancelMiddle();
    labels, s := Do(labels, s, Move(2, AfterDone));
    labels, s := Do(labels, s, Move(2, TakeSlot));
    labels, s := Do(labels, s, Move(2, CheckSlot));
    labels, s := Do(labels, s, Move(2, Send));
  }

  /** From three exclusive runs in line, the last can be first once the middle one is cancelled. */
  lemma OvertakingHappens() returns (labels: seq<Label>, s: Runner)
    ensures Reaches(IDLE, labels, s) && Overtakes(s, 2, 0)
  {
    labels, s := LastGoesAhead();
    labels, s := Do(labels, s, Move(2, Announce));
    labels, s := Do(labels, s, Move(2, Lock));
    labels, s := Do(labels, s, Move(2, CheckLock));
  }

  lemma Do(labels: seq<Label>, s: Runner, l: Label) returns (labels': seq<Label>, s': Runner)
    requires Reaches(IDLE, labels, s) && Can(s, l)
    ensures s' == Next(s, l) && Reaches(IDLE, labels', s')
  {
    labels', s' := labels + [l], Next(s, l);
    ReachesMore(IDLE, labels, s, l);
  }
}
