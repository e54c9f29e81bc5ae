/**
 The CV supervisor: a thread that reads commands and a main loop that runs one
 child process per session. They share a stop flag, a queue, a child slot and
 a state value; every access that a lock or the interpreter makes atomic is
 one step, and the steps of the two threads, of the children and of whoever
 writes the commands may come in any order.
 */
module CvSupervisor {
  import opened Options

  datatype Value = Offline | Loading | Ready | Starting | Running | Stopping | Failed

  /** What arrives on standard input; the run id of a start is already trimmed. */
  datatype Line = Start(run: string) | Stop | Shutdown | Unusable | EndOfInput

  datatype Queued = Begin(id: nat, run: string) | Quit

  datatype Process = Alive | Exited(code: int)

  /** What the reader does next. Starts are numbered in the order they are read. */
  datatype Reader =
    | Idle
    | GotStart(id: nat, run: string)    // before the stop flag is cleared
    | Cleared(id: nat, run: string)     // before the start is queued
    | GotStop(shutdown: bool)           // before the stop flag is set
    | Flagged(shutdown: bool)           // before the shutdown flag is set
    | Sending(shutdown: bool)           // before the child lock is taken
    | Sent(shutdown: bool)              // before the state is set or the command queued
    | LostInput                         // before the child lock is taken
    | Terminating(child: Option<nat>)
    | Exiting
    | Finished

  /** What the main loop does next. */
  datatype Main =
    | Booting
    | Looping
    | Waiting
    | Got(id: nat, run: string)                     // before the state is read
    | Checked(id: nat, run: string, seen: Value)    // before the stop flag is read
    | Refusing(id: nat, shown: Value)               // before that state is set
    | Opening(id: nat)                              // before the log files are opened
    | Announcing(id: nat)                           // before the state is set to starting
    | Spawning(id: nat)
    | Spawned(id: nat)                              // before the child lock is taken
    | Relaying(id: nat)
    | Reaped(id: nat)                               // before the child slot is emptied
    | Emptied(id: nat)                              // before the shutdown flag is read
    | Judging(id: nat, seen: Value)
    | Leaving
    | Left

  /**
   What the log keeps: commands as they are read, both writes of the stop flag,
   a stop as it reaches the child slot, registrations, and the reading of the
   slot after the input has ended.
   */
  datatype Event =
    StartRead(id: nat) | StopRead | FlagCleared | FlagSet | StopCarried | Registered(id: nat) | SlotRead

  datatype State = State(
    value: Value,
    queue: seq<Queued>,
    stopRequested: bool,
    shutdownRequested: bool,
    slot: Option<nat>,
    children: map<nat, Process>,
    told: set<nat>,
    refused: set<nat>,
    next: nat,
    reader: Reader,
    main: Main,
    gone: bool,
    log: seq<Event>)

  const INITIAL := State(Offline, [], false, false, None, map[], {}, {}, 0, Idle, Booting, false, [])

  /** A stop or shutdown reaches a child only while it lives. */
  function Tell(s: State, child: nat): (r: State)
    requires child in s.children
    ensures r.log == s.log
  {
    if s.children[child].Alive? then s.(told := s.told + {child}) else s
  }

  function Terminate(s: State, child: nat): (r: State)
    requires child in s.children
    ensures r.log == s.log
  {
    if s.children[child].Alive? then s.(children := s.children[child := Exited(-15)]) else s
  }

  predicate SlotKnown(s: State) {
    (s.slot.Some? ==> s.slot.value in s.children)
    && (s.reader.Terminating? && s.reader.child.Some? ==> s.reader.child.value in s.children)
  }

  // --- The command reader --------------------------------------------------

  function Read(s: State, line: Line): State {
    if !s.reader.Idle? then s
    else match line
      case Start(run) =>
        s.(next := s.next + 1, log := s.log + [StartRead(s.next)], reader := GotStart(s.next, run))
      case Stop => s.(log := s.log + [StopRead], reader := GotStop(false))
      case Shutdown => s.(log := s.log + [StopRead], reader := GotStop(true))
      case Unusable => s.(value := Failed)
      case EndOfInput => s.(reader := LostInput)
  }

  function ReaderStep(s: State): State
    requires SlotKnown(s)
  {
    match s.reader
    case Idle => s
    case GotStart(id, run) => s.(stopRequested := false, log := s.log + [FlagCleared], reader := Cleared(id, run))
    case Cleared(id, run) => s.(queue := s.queue + [Begin(id, run)], reader := Idle)
    case GotStop(shutdown) => s.(stopRequested := true, log := s.log + [FlagSet], reader := Flagged(shutdown))
    case Flagged(shutdown) =>
      s.(shutdownRequested := s.shutdownRequested || shutdown, reader := Sending(shutdown))
    case Sending(shutdown) =>
      (if s.slot.Some? then Tell(s, s.slot.value) else s).(reader := Sent(shutdown), log := s.log + [StopCarried])
    case Sent(shutdown) =>
      if shutdown then s.(queue := s.queue + [Quit], reader := Finished) else s.(value := Stopping, reader := Idle)
    case LostInput => s.(log := s.log + [SlotRead], reader := Terminating(s.slot))
    case Terminating(child) => (if child.Some? then Terminate(s, child.value) else s).(reader := Exiting)
    case Exiting => s.(reader := Finished, gone := true)
    case Finished => s
  }

  // --- The main loop -------------------------------------------------------

  /** What the environment decides for a step of the main loop. */
  datatype Outcome = Fails | Succeeds | Relays(state: Value)

  function TakeNext(s: State): (r: State)
    ensures r.log == s.log
  {
    if s.queue == [] then s
    else match s.queue[0]
      case Begin(id, run) => s.(queue := s.queue[1..], main := Got(id, run))
      case Quit => s.(queue := s.queue[1..], main := Leaving)
  }

  function Check(s: State, id: nat, run: string, seen: Value): (r: State)
    ensures r.log == s.log
  {
    s.(main :=
      if seen.Stopping? && s.stopRequested then Refusing(id, Ready)
      else if !seen.Ready? then Refusing(id, seen)
      else if run == "" then Refusing(id, Failed)
      else Opening(id))
  }

  function Spawn(s: State, id: nat, outcome: Outcome): (r: State)
    ensures r.log == s.log
  {
    if outcome.Fails? then s.(main := Refusing(id, Failed))
    else s.(children := s.children[id := Alive], main := Spawned(id))
  }

  /** The child lock is held across both: the slot is filled and the stop flag consulted. */
  function Register(s: State, id: nat): State
    requires id in s.children
  {
    var filled := s.(slot := Some(id), main := Relaying(id), log := s.log + [Registered(id)]);
    if s.stopRequested then Tell(filled, id) else filled
  }

  function Relay(s: State, id: nat, outcome: Outcome): (r: State)
    requires id in s.children
    ensures r.log == s.log
  {
    if outcome.Relays? then s.(value := outcome.state)
    else if s.children[id].Exited? then s.(main := Reaped(id))
    else s
  }

  function Judge(s: State, id: nat, seen: Value): (r: State)
    requires id in s.children
    ensures r.log == s.log
  {
    var failed := s.children[id] != Exited(0);
    var judged :=
      if failed && !seen.Failed? then s.(value := Failed)
      else if !failed && !seen.Ready? && !seen.Failed? then s.(value := Ready)
      else s;
    judged.(main := Looping)
  }

  function Leave(s: State): (r: State)
    requires SlotKnown(s)
    ensures r.log == s.log
  {
    (if s.slot.Some? then Terminate(s, s.slot.value) else s).(value := Offline, main := Left)
  }

  predicate ChildKnown(s: State) {
    s.main.Spawned? || s.main.Relaying? || s.main.Reaped? || s.main.Emptied? || s.main.Judging?
    ==> s.main.id in s.children
  }

  /** The steps that only move on, refuse a start or set the state. */
  function Advance(s: State, outcome: Outcome): (r: State)
    ensures r.log == s.log && r.children == s.children && r.reader == s.reader
  {
    match s.main
    case Booting =>
      if outcome.Fails? then s.(value := Failed, main := Left) else s.(value := Ready, main := Looping)
    case Looping => s.(main := if s.shutdownRequested then Leaving else Waiting)
    case Got(id, run) => s.(main := Checked(id, run, s.value))
    case Refusing(id, shown) => s.(value := shown, refused := s.refused + {id}, main := Looping)
    case Opening(id) => s.(main := if outcome.Fails? then Refusing(id, Failed) else Announcing(id))
    case Announcing(id) => s.(value := Starting, main := Spawning(id))
    case Reaped(id) => s.(slot := if s.slot == Some(id) then None else s.slot, main := Emptied(id))
    case Emptied(id) => s.(main := if s.shutdownRequested then Leaving else Judging(id, s.value))
    case _ => s
  }

  function MainStep(s: State, outcome: Outcome): State
    requires SlotKnown(s) && ChildKnown(s)
  {
    match s.main
    case Waiting => TakeNext(s)
    case Checked(id, run, seen) => Check(s, id, run, seen)
    case Spawning(id) => Spawn(s, id, outcome)
    case Spawned(id) => Register(s, id)
    case Relaying(id) => Relay(s, id, outcome)
    case Judging(id, seen) => Judge(s, id, seen)
    case Leaving => Leave(s)
    case _ => Advance(s, outcome)
  }

  /** A child ends by itself, or because it was told to. */
  function ChildEnds(s: State, id: nat, code: int): State {
    if id in s.children && s.children[id].Alive? then s.(children := s.children[id := Exited(code)]) else s
  }

  // --- Runs ----------------------------------------------------------------

  datatype Step =
    | Input(line: Line)
    | ReaderGoes
    | MainGoes(outcome: Outcome)
    | ChildGoes(id: nat, code: int)

  function Next(s: State, step: Step): State
    requires SlotKnown(s) && ChildKnown(s)
  {
    match step
    case Input(line) => if s.gone then s else Read(s, line)
    case ReaderGoes => if s.gone then s else ReaderStep(s)
    case MainGoes(outcome) => if s.gone then s else MainStep(s, outcome)
    case ChildGoes(id, code) => ChildEnds(s, id, code)
  }

  predicate Known(s: State) { SlotKnown(s) && ChildKnown(s) }

  lemma ReaderKeepsKnown(s: State)
    requires Known(s)
    ensures Known(ReaderStep(s))
  {
    match s.reader
    case Sending(_) =>
      if s.slot.Some? {
        assert Known(Tell(s, s.slot.value));
      }
    case Terminating(child) =>
      if child.Some? {
        assert Known(Terminate(s, child.value));
      }
    case LostInput =>
    case _ => assert ReaderStep(s).slot == s.slot && ReaderStep(s).main == s.main;
  }

  lemma AdvanceKeepsKnown(s: State, outcome: Outcome)
    requires Known(s)
    ensures Known(Advance(s, outcome))
  {
    var after := Advance(s, outcome);
    match s.main
    case Reaped(id) => assert after.main == Emptied(id) && (after.slot.Some? ==> after.slot == s.slot);
    case Emptied(id) => assert after.main in {Leaving, Judging(id, s.value)} && after.slot == s.slot;
    case _ => assert after.slot == s.slot;
  }

  lemma TakeNextKeepsKnown(s: State)
    requires Known(s)
    ensures Known(TakeNext(s))
  {
  }

  lemma CheckKeepsKnown(s: State, id: nat, run: string, seen: Value)
    requires Known(s)
    ensures Known(Check(s, id, run, seen))
  {
  }

  lemma SpawnKeepsKnown(s: State, id: nat, outcome: Outcome)
    requires Known(s)
    ensures Known(Spawn(s, id, outcome))
  {
  }

  lemma RegisterKeepsKnown(s: State, id: nat)
    requires Known(s) && id in s.children
    ensures Known(Register(s, id))
  {
  }

  lemma RelayKeepsKnown(s: State, id: nat, outcome: Outcome)
    requires Known(s) && id in s.children
    ensures Known(Relay(s, id, outcome))
  {
  }

  lemma LeaveKeepsKnown(s: State)
    requires Known(s)
    ensures Known(Leave(s))
  {
  }

  lemma MainKeepsKnown(s: State, outcome: Outcome)
    requires Known(s)
    ensures Known(MainStep(s, outcome))
  {
    match s.main
    case Waiting => TakeNextKeepsKnown(s);
    case Checked(id, run, seen) => CheckKeepsKnown(s, id, run, seen);
    case Spawning(id) => SpawnKeepsKnown(s, id, outcome);
    case Spawned(id) => RegisterKeepsKnown(s, id);
    case Relaying(id) => RelayKeepsKnown(s, id, outcome);
    case Judging(_, _) =>
    case Leaving => LeaveKeepsKnown(s);
    case _ => AdvanceKeepsKnown(s, outcome);
  }

  /** Whatever was spawned stays known, so no step ever looks up a child that is not there. */
  lemma StaysKnown(s: State, step: Step)
    requires Known(s)
    ensures Known(Next(s, step))
  {
    match step
    case Input(line) =>
    case ReaderGoes => ReaderKeepsKnown(s);
    case MainGoes(outcome) => MainKeepsKnown(s, outcome);
    case ChildGoes(id, code) =>
  }

  /** The state after any steps whatever, in any order; a step that is not possible does nothing. */
  ghost function Run(steps: seq<Step>): (s: State)
    ensures Known(s)
  {
    if steps == [] then INITIAL
    else
      var before := Run(steps[..|steps| - 1]);
      StaysKnown(before, steps[|steps| - 1]);
      Next(before, steps[|steps| - 1])
  }
}
