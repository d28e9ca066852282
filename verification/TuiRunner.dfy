/**
 The TUI's command runner as a step system: every goroutine's next move, every call the
 UI makes, in any order. The fields are the source's (slots, the readers/writer lock, the
 chain of done channels, the events buffer, the pending questions), together with a
 record of what each run has sent and been told, which no step reads.
*/
module TuiRunner {
  import opened Wrappers

  const RUNNER_SLOTS := 4
  const RUNNER_EVENT_BUFFER := 64

  /** The file a command rewrites, when it must run alone for it. */
  datatype Rewrites = RewritesNothing | RewritesConfig | RewritesOther

  /** What Start decides about a run. */
  datatype Job = Job(exclusive: bool, stream: bool, rewritesConfig: bool, after: Option<nat>)

  datatype Phase =
    | EmitQueued
    | WaitAfter                 // for the exclusive run started before it
    | WaitSlot
    | HaveSlot                  // about to look at its context
    | EmitRunning
    | WaitLock
    | Announced                 // a writer waiting for the readers to leave
    | HaveLock                  // about to look at its context again
    | Executing
    | EmitQuestion(q: nat)
    | AwaitAnswer(q: nat)
    | Returned                  // the command is over, the lock still held
    | Unlocking                 // the tokens forgotten, the lock still held
    | EmitDone(slot: bool)
    | FreeSlot
    | CloseDone
    | Ended

  datatype Kind = Queued | Running | Question(q: nat) | Chunk | Done

  /**
   One run. `blocked` says its send has found the buffer full, `work` is how many more
   questions and chunks its command has in it. The rest is a record: the wait it skipped,
   whether it executed, what reached the UI, and which questions it read a yes to.
  */
  datatype Run = Run(
    job: Job, phase: Phase, cancelled: bool, blocked: bool, work: nat,
    question: Option<nat>, answer: Option<bool>,
    skipped: bool, executed: bool, sent: seq<Kind>, yes: seq<nat>)

  /** A readers/writer lock: a writer announces itself, and then waits for the readers to leave. */
  datatype RWLock = RWLock(readers: set<nat>, announced: Option<nat>, writer: Option<nat>)

  /** The events channel; `late` records a send after it was closed. */
  datatype Channel = Channel(buffered: nat, closed: bool, late: bool)

  datatype Runner = Runner(
    runs: seq<Run>, slots: nat, config: RWLock, lastExclusive: Option<nat>, events: Channel,
    nextQuestion: nat, closed: bool, stopped: bool, answers: seq<(nat, bool)>)

  const IDLE := Runner([], 0, RWLock({}, None, None), None, Channel(0, false, false), 0, false, false, [])

  /** A run's own moves. */
  datatype Act =
    | Send | Block | GiveUp
    | AfterDone | Interrupt | TakeSlot | CheckSlot
    | Announce | Lock | RLock | CheckLock
    | Ask | ReadAnswer | AskInterrupted | Flush | Finish
    | Forget | Unlock | LeaveSlot | Close

  datatype Label =
    | Start(exclusive: bool, rewrites: Rewrites, stream: bool, work: nat)
    | Cancel(run: nat)
    | Answer(run: nat, q: nat, yes: bool)
    | Receive
    | CloseCalled
    | Stop
    | CloseEvents
    | Move(run: nat, act: Act)

  // ---------------------------------------------------------------------------
  // Reading a state.
  // ---------------------------------------------------------------------------

  predicate TakesLock(j: Job) {
    j.exclusive || !j.stream
  }

  /** Between getting the lock, or going without, and giving it back. */
  predicate InSection(p: Phase) {
    p.HaveLock? || p.Executing? || p.EmitQuestion? || p.AwaitAnswer? || p.Returned? || p.Unlocking?
  }

  predicate HoldsSlot(p: Phase) {
    || p.HaveSlot? || p.EmitRunning? || p.WaitLock? || p.Announced? || InSection(p)
    || p.FreeSlot? || (p.EmitDone? && p.slot)
  }

  predicate Emitting(p: Phase) {
    p.EmitQueued? || p.EmitRunning? || p.EmitQuestion? || p.EmitDone?
  }

  /** The command itself is under way. */
  predicate Commanding(p: Phase) {
    p.Executing? || p.EmitQuestion? || p.AwaitAnswer?
  }

  predicate IsRun(s: Runner, i: nat) {
    i < |s.runs|
  }

  /** A run's context is over when it was cancelled, or when the runner was stopped. */
  predicate Interrupted(s: Runner, i: nat)
    requires IsRun(s, i)
  {
    s.runs[i].cancelled || s.stopped
  }

  /** The run a wait is for has closed its channel; a nil channel is not waited for. */
  predicate HasEnded(s: Runner, before: Option<nat>) {
    before.Some? && IsRun(s, before.value) ==> s.runs[before.value].phase.Ended?
  }

  /** What a run is about to tell the UI. */
  function Message(p: Phase): Kind
    requires Emitting(p)
  {
    match p
    case EmitQueued => Queued
    case EmitRunning => Running
    case EmitQuestion(q) => Question(q)
    case EmitDone(_) => Done
  }

  /** Where a run goes once it has told the UI, or given up on telling it. */
  function AfterEmit(r: Run): Phase
    requires Emitting(r.phase)
  {
    match r.phase
    case EmitQueued => if r.job.after.Some? then WaitAfter else WaitSlot
    case EmitRunning => if TakesLock(r.job) then WaitLock else HaveLock
    case EmitQuestion(q) => AwaitAnswer(q)
    case EmitDone(slot) => if slot then FreeSlot else CloseDone
  }

  // ---------------------------------------------------------------------------
  // Stepping.
  // ---------------------------------------------------------------------------

  predicate HasRoom(c: Channel) {
    c.buffered < RUNNER_EVENT_BUFFER
  }

  predicate CanMove(s: Runner, i: nat, act: Act)
    requires IsRun(s, i)
  {
    var r := s.runs[i];
    var p := r.phase;
    var free := s.config.announced.None? && s.config.writer.None?;
    match act
    case Send => Emitting(p) && HasRoom(s.events)
    case Block => Emitting(p) && !r.blocked && !HasRoom(s.events)
    case GiveUp => Emitting(p) && r.blocked && s.stopped
    case AfterDone => p.WaitAfter? && HasEnded(s, r.job.after)
    case Interrupt => (p.WaitAfter? || p.WaitSlot?) && Interrupted(s, i)
    case TakeSlot => p.WaitSlot? && s.slots < RUNNER_SLOTS
    case CheckSlot => p.HaveSlot?
    case Announce => p.WaitLock? && r.job.exclusive && free
    case Lock => p.Announced? && s.config.readers == {}
    case RLock => p.WaitLock? && !r.job.exclusive && free
    case CheckLock => p.HaveLock?
    case Ask => p.Executing? && r.work > 0
    case ReadAnswer => p.AwaitAnswer? && r.answer.Some?
    case AskInterrupted => p.AwaitAnswer? && Interrupted(s, i)
    case Flush => r.job.stream && r.executed && (Commanding(p) || p.Returned?) && r.work > 0
    case Finish => p.Executing?
    case Forget => p.Returned?
    case Unlock => p.Unlocking?
    case LeaveSlot => p.FreeSlot?
    case Close => p.CloseDone?
  }

  function PhaseAfter(s: Runner, i: nat, act: Act): Phase
    requires IsRun(s, i) && CanMove(s, i, act)
  {
    var r := s.runs[i];
    match act
    case Send => AfterEmit(r)
    case GiveUp => AfterEmit(r)
    case Block => r.phase
    case AfterDone => WaitSlot
    case Interrupt => EmitDone(false)
    case TakeSlot => HaveSlot
    case CheckSlot => if Interrupted(s, i) then EmitDone(true) else EmitRunning
    case Announce => Announced
    case Lock => HaveLock
    case RLock => HaveLock
    case CheckLock => if Interrupted(s, i) then Returned else Executing
    case Ask => EmitQuestion(s.nextQuestion)
    case ReadAnswer => Executing
    case AskInterrupted => Executing
    case Flush => r.phase
    case Finish => Returned
    case Forget => Unlocking
    case Unlock => EmitDone(true)
    case LeaveSlot => CloseDone
    case Close => Ended
  }

  function RunAfter(s: Runner, i: nat, act: Act): Run
    requires IsRun(s, i) && CanMove(s, i, act)
  {
    var r := s.runs[i];
    var asked := act.ReadAnswer? || act.AskInterrupted?;
    Run(
      r.job,
      PhaseAfter(s, i, act),
      r.cancelled,
      act.Block? || (r.blocked && !act.Send? && !act.GiveUp?),
      if act.Ask? || act.Flush? then r.work - 1 else r.work,
      if act.Ask? then Some(s.nextQuestion) else if asked then None else r.question,
      if act.Ask? || asked then None else r.answer,
      r.skipped || (act.Interrupt? && r.phase.WaitAfter?),
      r.executed || (act.CheckLock? && !Interrupted(s, i)),
      if act.Send? then r.sent + [Message(r.phase)]
      else if act.Flush? && HasRoom(s.events) then r.sent + [Chunk] else r.sent,
      // An interrupted run never takes a yes, even when one has arrived.
      if act.ReadAnswer? && r.answer.value && !Interrupted(s, i) then r.yes + [r.phase.q] else r.yes)
  }

  function LockAfter(c: RWLock, i: nat, j: Job, act: Act): RWLock {
    match act
    case Announce => c.(announced := Some(i))
    case Lock => c.(announced := None, writer := Some(i))
    case RLock => c.(readers := c.readers + {i})
    case Unlock =>
      if j.exclusive then c.(writer := None)
      else if j.stream then c
      else c.(readers := c.readers - {i})
    case _ => c
  }

  /** What is delivered goes into the channel; a chunk that finds it full is dropped. */
  function EventsAfter(c: Channel, act: Act): Channel {
    if act.Send? || (act.Flush? && HasRoom(c))
    then c.(buffered := c.buffered + 1, late := c.late || c.closed)
    else c
  }

  function SlotsAfter(slots: nat, act: Act): nat {
    if act.TakeSlot? then slots + 1 else if act.LeaveSlot? && slots > 0 then slots - 1 else slots
  }

  function Moved(s: Runner, i: nat, act: Act): Runner
    requires IsRun(s, i) && CanMove(s, i, act)
  {
    s.(runs := s.runs[i := RunAfter(s, i, act)],
       slots := SlotsAfter(s.slots, act),
       config := LockAfter(s.config, i, s.runs[i].job, act),
       events := EventsAfter(s.events, act),
       nextQuestion := if act.Ask? then s.nextQuestion + 1 else s.nextQuestion)
  }

  function NewRun(s: Runner, exclusive: bool, rewrites: Rewrites, stream: bool, work: nat): Run {
    var alone := exclusive || !rewrites.RewritesNothing?;
    var job := Job(alone, stream, rewrites.RewritesConfig?, if alone then s.lastExclusive else None);
    Run(job, EmitQueued, false, false, work, None, None, false, false, [], [])
  }

  /** When something other than a run can happen. */
  predicate CanCall(s: Runner, l: Label)
    requires !l.Move?
  {
    match l
    case Receive => s.events.buffered > 0
    case CloseCalled => !s.closed
    case Stop => !s.stopped
    case CloseEvents =>
      s.closed && s.stopped && !s.events.closed && forall i | 0 <= i < |s.runs| :: s.runs[i].phase.Ended?
    case _ => true
  }

  function Called(s: Runner, l: Label): Runner
    requires !l.Move? && CanCall(s, l)
  {
    match l
    case Start(exclusive, rewrites, stream, work) =>
      if s.closed then s
      else
        var r := NewRun(s, exclusive, rewrites, stream, work);
        s.(runs := s.runs + [r],
           lastExclusive := if r.job.exclusive then Some(|s.runs|) else s.lastExclusive)
    case Cancel(i) =>
      if IsRun(s, i) && !s.runs[i].phase.Ended?
      then s.(runs := s.runs[i := s.runs[i].(cancelled := true)]) else s
    case Answer(i, q, yes) =>
      if IsRun(s, i) && s.runs[i].question == Some(q)
      then s.(runs := s.runs[i := s.runs[i].(question := None, answer := Some(yes))],
              answers := s.answers + [(q, yes)])
      else s
    case Receive => s.(events := s.events.(buffered := s.events.buffered - 1))
    case CloseCalled => s.(closed := true)
    case Stop => s.(stopped := true)
    case CloseEvents => s.(events := s.events.(closed := true))
  }

  predicate Can(s: Runner, l: Label) {
    if l.Move? then IsRun(s, l.run) && CanMove(s, l.run, l.act) else CanCall(s, l)
  }

  function Next(s: Runner, l: Label): Runner
    requires Can(s, l)
  {
    if l.Move? then Moved(s, l.run, l.act) else Called(s, l)
  }

  /** A history is any series of labels, each possible when it happens. */
  ghost predicate Reaches(s: Runner, labels: seq<Label>, t: Runner)
    decreases |labels|
  {
    if labels == [] then t == s
    else Can(s, labels[0]) && Reaches(Next(s, labels[0]), labels[1..], t)
  }

  // ---------------------------------------------------------------------------
  // The object the UI holds. Its methods are the labels the UI causes; each runs under
  // the mutex, so each is one step.
  // ---------------------------------------------------------------------------

  class CliRunner {
    var runs: seq<Run>
    var slots: nat
    var config: RWLock
    var lastExclusive: Option<nat>
    var events: Channel
    var nextQuestion: nat
    var closed: bool
    var stopped: bool
    ghost var answers: seq<(nat, bool)>

    ghost function State(): Runner
      reads this
    {
      Runner(runs, slots, config, lastExclusive, events, nextQuestion, closed, stopped, answers)
    }

    constructor ()
      ensures State() == IDLE
    {
      runs, slots, config, lastExclusive := [], 0, RWLock({}, None, None), None;
      events, nextQuestion, closed, stopped, answers := Channel(0, false, false), 0, false, false, [];
    }

    /** The new run's id, or None once the runner has been shut down. */
    method StartRun(exclusive: bool, rewrites: Rewrites, stream: bool, work: nat) returns (id: Option<nat>)
      modifies this
      ensures State() == Next(old(State()), Start(exclusive, rewrites, stream, work))
      ensures id == if old(closed) then None else Some(|old(runs)|)
    {
      if closed {
        return None;
      }
      var alone := exclusive || rewrites != RewritesNothing;
      var job := Job(alone, stream, rewrites == RewritesConfig, None);
      id := Some(|runs|);
      if alone {
        job := job.(after := lastExclusive);
        lastExclusive := id;
      }
      runs := runs + [Run(job, EmitQueued, false, false, work, None, None, false, false, [], [])];
    }

    method CancelRun(id: nat)
      modifies this
      ensures State() == Next(old(State()), Cancel(id))
    {
      if id < |runs| && runs[id].phase != Ended {
        runs := runs[id := runs[id].(cancelled := true)];
      }
    }

    /** An answer to anything but the question the run is waiting on is dropped. */
    method AnswerRun(id: nat, q: nat, yes: bool)
      modifies this
      ensures State() == Next(old(State()), Answer(id, q, yes))
    {
      if id >= |runs| || runs[id].question != Some(q) {
        return;
      }
      runs := runs[id := runs[id].(question := None, answer := Some(yes))];
      answers := answers + [(q, yes)];
    }

    /** The half of Close under the mutex. It says whether the caller is the one to shut down. */
    method BeginClose() returns (first: bool)
      modifies this
      ensures first <==> !old(closed)
      ensures State() == if first then Next(old(State()), CloseCalled) else old(State())
    {
      if closed {
        return false;
      }
      closed := true;
      first := true;
    }
  }
}
