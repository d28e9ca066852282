/**
 The order of exclusive runs, settled: of two of them, the later can get ahead of the
 earlier exactly when some exclusive run between them has been cut off before its own wait
 was over.
*/
module RunnerOrder {
  import opened Wrappers
  import opened TuiRunner
  import opened RunnerSafety
  import opened RunnerEvents
  import opened RunnerProgress

  /** Two exclusive runs, the earlier one unfinished and the later one still waiting. */
  ghost predicate InLine(s: Runner, i: nat, j: nat) {
    && i < j && IsRun(s, j) && s.runs[i].job.exclusive && s.runs[j].job.exclusive
    && !s.runs[i].phase.Ended? && !PastWait(s.runs[j].phase)
  }

  /** Run k has left the line, or is about to: its context was over with its wait not over. */
  predicate LeavesLine(s: Runner, k: nat)
    requires IsRun(s, k)
  {
    s.runs[k].skipped || (Interrupted(s, k) && !PastWait(s.runs[k].phase))
  }

  /** Run j was let past its wait while run i had still to finish. */
  ghost predicate Ahead(s: Runner, i: nat, j: nat) {
    && IsRun(s, i) && IsRun(s, j)
    && PastWait(s.runs[j].phase) && !s.runs[j].skipped && !s.runs[i].phase.Ended?
  }

  /** Nobody cancels a run between i and j any more, and nothing is shut down. */
  ghost predicate LeftAlone(labels: seq<Label>, i: nat, j: nat) {
    forall n | 0 <= n < |labels| :: labels[n] != Stop && (labels[n].Cancel? ==> !(i < labels[n].run < j))
  }

  /** However things go on, run j does not get ahead of run i. */
  ghost predicate OrderHolds(s: Runner, i: nat, j: nat) {
    forall labels, t :: Reaches(s, labels, t) && LeftAlone(labels, i, j) ==> !Ahead(t, i, j)
  }

  /** Every exclusive run between i and j keeps its place. */
  ghost predicate AllKeepPlace(s: Runner, i: nat, j: nat)
    requires IsRun(s, j)
  {
    forall k | i < k < j && s.runs[k].job.exclusive :: !LeavesLine(s, k)
  }

  // ---------------------------------------------------------------------------
  // Places that are kept are respected.
  // ---------------------------------------------------------------------------

  lemma KeepsPlace(s: Runner, l: Label, k: nat)
    requires IsRun(s, k) && !LeavesLine(s, k)
    requires Can(s, l) && l != Cancel(k) && l != Stop
    ensures IsRun(Next(s, l), k) && !LeavesLine(Next(s, l), k)
    ensures Next(s, l).runs[k].job == s.runs[k].job
  {
  }

  lemma NextKeepsPlaces(s: Runner, l: Label, i: nat, j: nat)
    requires IsRun(s, j) && AllKeepPlace(s, i, j)
    requires Can(s, l) && LeftAlone([l], i, j)
    ensures IsRun(Next(s, l), j) && AllKeepPlace(Next(s, l), i, j)
  {
    assert [l][0] == l;
    LinksStay(s, [l], Next(s, l));
    forall k | i < k < j && s.runs[k].job.exclusive ensures !LeavesLine(Next(s, l), k) {
      KeepsPlace(s, l, k);
    }
  }

  lemma {:induction false} PlacesAreKept(s: Runner, labels: seq<Label>, t: Runner, i: nat, j: nat)
    requires IsRun(s, j) && AllKeepPlace(s, i, j)
    requires Reaches(s, labels, t) && LeftAlone(labels, i, j)
    ensures IsRun(t, j) && AllKeepPlace(t, i, j)
    decreases |labels|
  {
    if labels != [] {
      assert [labels[0]][0] == labels[0];
      NextKeepsPlaces(s, labels[0], i, j);
      forall n | 0 <= n < |labels[1..]|
        ensures labels[1..][n] != Stop && (labels[1..][n].Cancel? ==> !(i < labels[1..][n].run < j))
      {
        assert labels[1..][n] == labels[n + 1];
      }
      PlacesAreKept(Next(s, labels[0]), labels[1..], t, i, j);
    }
  }

  lemma {:induction false} KeptPlacesAreRespected(s: Runner, labels: seq<Label>, t: Runner, i: nat, j: nat)
    requires Safe(s) && InLine(s, i, j) && AllKeepPlace(s, i, j)
    requires Reaches(s, labels, t) && LeftAlone(labels, i, j)
    ensures !Ahead(t, i, j)
  {
    SafeAlways(s, labels, t);
    PlacesAreKept(s, labels, t, i, j);
    LinksStay(s, labels, t);
    if Ahead(t, i, j) {
      EarlierOnesEnded(t, i, j);
    }
  }

  // ---------------------------------------------------------------------------
  // A place that is given up is passed over: one run is brought to its end while nobody
  // else is, and then the exclusive run behind it gets past its wait.
  // ---------------------------------------------------------------------------

  /** Steps with no cancel, no start and no shutdown among them. */
  ghost predicate Calm(labels: seq<Label>) {
    forall n | 0 <= n < |labels| :: labels[n].Receive? || labels[n].Move? || labels[n].Answer?
  }

  /** From s to t, no run but k has ended, and whoever was still waiting has not moved. */
  ghost predicate Spares(s: Runner, t: Runner, k: nat) {
    && |t.runs| == |s.runs|
    && forall m | 0 <= m < |s.runs| ::
         && t.runs[m].job == s.runs[m].job
         && (m != k && t.runs[m].phase.Ended? ==> s.runs[m].phase.Ended?)
         && (m != k && !PastWait(s.runs[m].phase) ==> t.runs[m] == s.runs[m])
  }

  /** Nothing keeps run k waiting in line: its predecessor is over, or it may leave. */
  ghost predicate Unchained(s: Runner, k: nat)
    requires IsRun(s, k)
  {
    PastWait(s.runs[k].phase) || HasEnded(s, s.runs[k].job.after) || Interrupted(s, k)
  }

  lemma UnchainedHelped(s: Runner, k: nat) returns (l: Label)
    requires Ready(s) && IsRun(s, k) && !s.runs[k].phase.Ended? && Unchained(s, k)
    ensures Can(s, l) && Helps(s, l) && (l.run == k || HoldsSlot(s.runs[l.run].phase))
  {
    if !s.runs[k].phase.WaitAfter? {
      l := PastWaitHelped(s, k);
    } else if HasEnded(s, s.runs[k].job.after) {
      l := Move(k, AfterDone);
    } else {
      l := Move(k, Interrupt);
    }
  }

  lemma HelpSpares(s: Runner, l: Label, k: nat)
    requires Can(s, l) && Helps(s, l) && IsRun(s, k)
    requires l.run == k || HoldsSlot(s.runs[l.run].phase)
    ensures Spares(s, Next(s, l), k)
  {
  }

  lemma HelpUnchains(s: Runner, l: Label, k: nat)
    requires Can(s, l) && Helps(s, l) && IsRun(s, k) && Unchained(s, k)
    ensures IsRun(Next(s, l), k) && Unchained(Next(s, l), k)
  {
  }

  lemma SparesTwice(s: Runner, t: Runner, u: Runner, k: nat)
    requires Spares(s, t, k) && Spares(t, u, k)
    ensures Spares(s, u, k)
  {
  }

  /** A step of the kind that brings a run on, with less left to do after it or fewer events unread. */
  ghost predicate Brings(s: Runner, l: Label, k: nat) {
    && Can(s, l) && (l.Receive? || l.Move? || l.Answer?)
    && var t := Next(s, l);
    && Good(t) && Spares(s, t, k)
    && (TotalLeft(t.runs) < TotalLeft(s.runs)
        || (TotalLeft(t.runs) == TotalLeft(s.runs) && t.events.buffered < s.events.buffered))
  }

  lemma HelpBrings(s: Runner, l: Label, k: nat)
    requires Good(s) && Can(s, l) && Helps(s, l) && IsRun(s, k)
    requires l.run == k || HoldsSlot(s.runs[l.run].phase)
    ensures Brings(s, l, k)
  {
    HelpUsesUp(s, l);
    HelpSpares(s, l, k);
    GoodStep(s, l);
  }

  lemma ReceiveBrings(s: Runner, k: nat)
    requires Good(s) && IsRun(s, k) && !HasRoom(s.events)
    ensures Brings(s, Receive, k) && Next(s, Receive).runs == s.runs
  {
    GoodStep(s, Receive);
  }

  lemma EndStep(s: Runner, k: nat) returns (l: Label)
    requires Good(s) && IsRun(s, k) && Unchained(s, k) && !s.runs[k].phase.Ended?
    ensures Brings(s, l, k) && Unchained(Next(s, l), k)
  {
    if HasRoom(s.events) {
      l := UnchainedHelped(s, k);
      HelpBrings(s, l, k);
      HelpUnchains(s, l, k);
    } else {
      l := Receive;
      ReceiveBrings(s, k);
    }
  }

  lemma {:induction false} EndsAlone(s: Runner, k: nat) returns (labels: seq<Label>, t: Runner)
    requires Good(s) && IsRun(s, k) && Unchained(s, k)
    ensures Reaches(s, labels, t) && Calm(labels) && Good(t)
    ensures Spares(s, t, k) && t.runs[k].phase.Ended?
    decreases TotalLeft(s.runs), s.events.buffered
  {
    if s.runs[k].phase.Ended? {
      labels, t := [], s;
    } else {
      var l := EndStep(s, k);
      var rest;
      rest, t := EndsAlone(Next(s, l), k);
      SparesTwice(s, Next(s, l), t, k);
      labels := FirstThen(s, l, rest, t);
    }
  }

  lemma FirstThen(s: Runner, l: Label, rest: seq<Label>, t: Runner) returns (labels: seq<Label>)
    requires Can(s, l) && (l.Receive? || l.Move? || l.Answer?)
    requires Reaches(Next(s, l), rest, t) && Calm(rest)
    ensures Reaches(s, labels, t) && Calm(labels)
  {
    labels := [l] + rest;
    assert labels[1..] == rest;
  }

  /** Run j has yet to pass its wait, and the run it waits for is over. */
  ghost predicate MayPass(s: Runner, j: nat) {
    && IsRun(s, j) && !PastWait(s.runs[j].phase) && !s.runs[j].skipped
    && HasEnded(s, s.runs[j].job.after)
  }

  lemma PassStep(s: Runner, j: nat) returns (l: Label)
    requires Good(s) && MayPass(s, j)
    ensures Brings(s, l, j)
    ensures MayPass(Next(s, l), j) || (PastWait(Next(s, l).runs[j].phase) && !Next(s, l).runs[j].skipped)
  {
    if HasRoom(s.events) {
      l := if s.runs[j].phase.EmitQueued? then Move(j, Send) else Move(j, AfterDone);
      HelpBrings(s, l, j);
      StaysInLine(s, l, j);
    } else {
      l := Receive;
      ReceiveBrings(s, j);
    }
  }

  lemma StaysInLine(s: Runner, l: Label, j: nat)
    requires MayPass(s, j) && Can(s, l) && (l == Move(j, Send) || l == Move(j, AfterDone))
    ensures MayPass(Next(s, l), j) || (PastWait(Next(s, l).runs[j].phase) && !Next(s, l).runs[j].skipped)
  {
  }

  lemma {:induction false} PassesWait(s: Runner, j: nat) returns (labels: seq<Label>, t: Runner)
    requires Good(s) && MayPass(s, j)
    ensures Reaches(s, labels, t) && Calm(labels) && Good(t)
    ensures Spares(s, t, j) && PastWait(t.runs[j].phase) && !t.runs[j].skipped
    decreases TotalLeft(s.runs), s.events.buffered
  {
    var l := PassStep(s, j);
    var rest: seq<Label> := [];
    t := Next(s, l);
    if !PastWait(t.runs[j].phase) {
      rest, t := PassesWait(t, j);
      SparesTwice(s, Next(s, l), t, j);
    }
    labels := FirstThen(s, l, rest, t);
  }

  /** Run j got ahead of run i, and the runs waiting after it have not moved. */
  ghost predicate Passed(s: Runner, t: Runner, i: nat, j: nat) {
    && Good(t) && Ahead(t, i, j) && |t.runs| == |s.runs|
    && (forall m | 0 <= m < |s.runs| :: t.runs[m].job == s.runs[m].job)
    && forall m | j < m < |s.runs| && !PastWait(s.runs[m].phase) :: t.runs[m] == s.runs[m]
  }

  /** Run p, which nothing keeps in line, ends; and run j, which waits for it, passes. */
  lemma OneIsPassed(s: Runner, i: nat, p: nat, j: nat) returns (labels: seq<Label>, t: Runner)
    requires Good(s) && i < p < j && InLine(s, i, j) && Unchained(s, p)
    requires s.runs[j].job.after == Some(p)
    ensures Reaches(s, labels, t) && Calm(labels) && Passed(s, t, i, j)
  {
    assert !s.runs[j].skipped by {
      assert ChainAt(s, j);
    }
    var first, u := EndsAlone(s, p);
    var second;
    second, t := PassesWait(u, j);
    ReachesOn(s, first, u, second, t);
    labels := first + second;
  }

  lemma Predecessor(s: Runner, k: nat, j: nat) returns (p: nat)
    requires Safe(s) && k < j && IsRun(s, j) && s.runs[k].job.exclusive && s.runs[j].job.exclusive
    ensures k <= p < j && s.runs[p].job.exclusive && s.runs[j].job.after == Some(p)
  {
    assert ChainAt(s, j);
    p := s.runs[j].job.after.value;
  }

  /** From the run that leaves, the gap travels down the line to run j. */
  lemma {:induction false} LeftPlaceIsPassed(s: Runner, i: nat, k: nat, j: nat) returns (labels: seq<Label>, t: Runner)
    requires Good(s) && InLine(s, i, j) && i < k < j && s.runs[k].job.exclusive && LeavesLine(s, k)
    ensures Reaches(s, labels, t) && Calm(labels) && Passed(s, t, i, j)
    decreases j
  {
    var p := Predecessor(s, k, j);
    if p == k || PastWait(s.runs[p].phase) {
      assert Unchained(s, p) by {
        assert ChainAt(s, k);
      }
      labels, t := OneIsPassed(s, i, p, j);
    } else {
      var first, u := LeftPlaceIsPassed(s, i, k, p);
      var second;
      second, t := OneIsPassed(u, i, p, j);
      ReachesOn(s, first, u, second, t);
      PassedTwice(s, u, t, i, p, j);
      labels := first + second;
    }
  }

  lemma PassedTwice(s: Runner, u: Runner, t: Runner, i: nat, p: nat, j: nat)
    requires p < j && Passed(s, u, i, p) && Passed(u, t, i, j)
    ensures Passed(s, t, i, j)
  {
  }

  lemma CalmIsLeftAlone(labels: seq<Label>, i: nat, j: nat)
    requires Calm(labels)
    ensures LeftAlone(labels, i, j)
  {
  }

  /**
   Of any two exclusive runs, in any reachable state where the earlier is unfinished and
   the later still waits: start order holds between them, whatever else happens, exactly
   when every exclusive run between them keeps its place.
  */
  lemma OrderHoldsExactlyInLine(before: seq<Label>, s: Runner, i: nat, j: nat)
    requires Reaches(IDLE, before, s) && InLine(s, i, j)
    ensures OrderHolds(s, i, j) <==> AllKeepPlace(s, i, j)
  {
    GoodAlways(IDLE, before, s);
    if AllKeepPlace(s, i, j) {
      forall labels, t | Reaches(s, labels, t) && LeftAlone(labels, i, j) ensures !Ahead(t, i, j) {
        KeptPlacesAreRespected(s, labels, t, i, j);
      }
    } else {
      var k :| i < k < j && s.runs[k].job.exclusive && LeavesLine(s, k);
      var labels, t := LeftPlaceIsPassed(s, i, k, j);
      CalmIsLeftAlone(labels, i, j);
    }
  }
}
