/** What the supervisor's state says and which starts it turns away, in any interleaving. */
module CvSupervisorStates {
  import opened CvSupervisor
  import opened CvSupervisorProperties
  import opened Options

  lemma RunNext(steps: seq<Step>)
    requires steps != []
    ensures Run(steps) == Next(Run(steps[..|steps| - 1]), steps[|steps| - 1])
  {
  }

  // --- What the steps of the main loop leave alone -------------------------

  /** The steps of the main loop that have a function of their own. */
  predicate Decides(main: Main) {
    || main.Waiting? || main.Checked? || main.Spawning?
    || main.Spawned? || main.Relaying? || main.Judging? || main.Leaving?
  }

  lemma AdvanceIs(s: State, outcome: Outcome)
    requires Known(s) && !Decides(s.main)
    ensures MainStep(s, outcome) == Advance(s, outcome)
  {
  }

  /** While a child is being tended nothing is refused, and the main loop moves on in one way only. */
  lemma TendingMoves(s: State, outcome: Outcome)
    requires Known(s) && (s.main.Spawned? || s.main.Relaying? || s.main.Judging? || s.main.Leaving?)
    ensures var after := MainStep(s, outcome);
      && after.refused == s.refused && after.children.Keys == s.children.Keys
      && (after.main == s.main || after.main.Relaying? || after.main.Reaped? || after.main.Looping? || after.main.Left?)
  {
    match s.main
    case Leaving => LeavingMoves(s);
    case Spawned(id) => RegisteringMoves(s, id);
    case _ =>
  }

  lemma LeavingMoves(s: State)
    requires Known(s)
    ensures Leave(s).refused == s.refused && Leave(s).children.Keys == s.children.Keys && Leave(s).main.Left?
  {
  }

  lemma RegisteringMoves(s: State, id: nat)
    requires id in s.children
    ensures Register(s, id).refused == s.refused && Register(s, id).children == s.children
      && Register(s, id).main == Relaying(id)
  {
  }

  // --- Why the state is failed ---------------------------------------------

  ghost predicate Crashed(s: State, id: nat) {
    id in s.children && s.children[id].Exited? && s.children[id].code != 0
  }

  ghost predicate SomeCrashed(s: State) { exists id :: Crashed(s, id) }

  /** An unusable line, a failed boot, log or spawn, a start without an id, a relayed failure, a bad exit. */
  ghost predicate Fault(s: State, step: Step)
    requires Known(s)
  {
    || (!s.gone && s.reader.Idle? && step == Input(Unusable))
    || (!s.gone && step == MainGoes(Fails) && (s.main.Booting? || s.main.Opening? || s.main.Spawning?))
    || (!s.gone && step.MainGoes? && s.main.Checked? && s.main.run == "")
    || (!s.gone && step == MainGoes(Relays(Failed)) && s.main.Relaying?)
    || (SomeCrashed(Next(s, step)) && !SomeCrashed(s))
  }

  ghost predicate Tainted(s: State) {
    || s.value.Failed? || SomeCrashed(s) || (s.main.Refusing? && s.main.shown.Failed?)
    || (s.main.Checked? && s.main.seen.Failed?) || (s.main.Judging? && s.main.seen.Failed?)
  }

  /** A session is judged only once it has ended. */
  lemma JudgedHasExited(steps: seq<Step>)
    requires Run(steps).main.Judging?
    ensures Run(steps).children[Run(steps).main.id].Exited?
  {
    AlwaysSafe(steps, Run(steps).main.id);
  }

  lemma ReaderNeedsFault(s: State, step: Step)
    requires Known(s) && !step.MainGoes? && !SomeCrashed(Next(s, step)) && Tainted(Next(s, step)) && !Tainted(s)
    ensures Fault(s, step)
  {
    ReaderSpawnsNone(s, step);
    ReaderFailsOnce(s, step);
  }

  lemma ReaderFailsOnce(s: State, step: Step)
    requires Known(s) && !step.MainGoes? && !s.value.Failed? && Next(s, step).value.Failed?
    ensures !s.gone && s.reader.Idle? && step == Input(Unusable)
  {
  }

  lemma AdvanceNeedsFault(s: State, outcome: Outcome)
    requires Known(s) && !s.gone && Tainted(Advance(s, outcome)) && !Tainted(s)
    ensures outcome.Fails? && (s.main.Booting? || s.main.Opening?)
  {
    if SomeCrashed(Advance(s, outcome)) {
      var id :| Crashed(Advance(s, outcome), id);
      assert Crashed(s, id);
    }
  }

  lemma MainNeedsFault(s: State, outcome: Outcome)
    requires Known(s) && !s.gone && (s.main.Judging? ==> s.children[s.main.id].Exited?)
    requires Tainted(MainStep(s, outcome)) && !Tainted(s) && !SomeCrashed(MainStep(s, outcome))
    ensures Fault(s, MainGoes(outcome))
  {
    match s.main
    case Judging(id, _) => assert !Crashed(s, id);
    case Waiting =>
    case Checked(_, _, _) =>
    case Spawning(_) =>
    case Spawned(_) =>
    case Relaying(_) =>
    case Leaving =>
    case _ => AdvanceNeedsFault(s, outcome);
  }

  lemma TaintNeedsFault(s: State, step: Step)
    requires Known(s) && (s.main.Judging? ==> s.children[s.main.id].Exited?)
    requires Tainted(Next(s, step)) && !Tainted(s)
    ensures Fault(s, step)
  {
    if !SomeCrashed(Next(s, step)) {
      if step.MainGoes? {
        MainNeedsFault(s, step.outcome);
      } else {
        ReaderNeedsFault(s, step);
      }
    }
  }

  /** The state is failed only after something has gone wrong. */
  lemma {:induction false} FailedHasCause(steps: seq<Step>) returns (n: nat)
    requires Tainted(Run(steps))
    ensures n < |steps| && Fault(Run(steps[..n]), steps[n])
  {
    var front := steps[..|steps| - 1];
    RunNext(steps);
    if Tainted(Run(front)) {
      n := FailedHasCause(front);
      assert front[..n] == steps[..n];
    } else {
      n := |front|;
      if Run(front).main.Judging? {
        JudgedHasExited(front);
      }
      TaintNeedsFault(Run(front), steps[n]);
    }
  }

  // --- How a session is judged ---------------------------------------------

  /**
   After a session that ended well the worker is ready again, after any other
   it has failed; where the state already said failed, or ready after a session
   that ended well, it stays what it is.
   */
  lemma JudgedExactly(steps: seq<Step>, outcome: Outcome) returns (code: int)
    requires Run(steps).main.Judging? && !Run(steps).gone
    ensures var s, after := Run(steps), Next(Run(steps), MainGoes(outcome));
      && s.children[s.main.id] == Exited(code)
      && after == s.(main := Looping, value :=
           if s.main.seen.Failed? || (code == 0 && s.main.seen.Ready?) then s.value
           else if code == 0 then Ready else Failed)
  {
    JudgedHasExited(steps);
    code := Run(steps).children[Run(steps).main.id].code;
  }

  // --- Which starts are turned away ----------------------------------------

  /**
   The state this step answers the start with, if it turns it away: because it
   was not ready when it was looked at, the start has no run id, or its log or
   its process could not be made.
   */
  function AnsweredWith(s: State, step: Step, id: nat): Option<Value> {
    if s.gone || !step.MainGoes? then None
    else match s.main
      case Checked(i, run, seen) =>
        if i != id || (seen.Ready? && run != "") then None
        else if seen.Ready? then Some(Failed)
        else if seen.Stopping? && s.stopRequested then Some(Ready)
        else Some(seen)
      case Opening(i) => if i == id && step.outcome.Fails? then Some(Failed) else None
      case Spawning(i) => if i == id && step.outcome.Fails? then Some(Failed) else None
      case _ => None
  }

  ghost predicate TurnedAwayAt(steps: seq<Step>, n: int, id: nat) {
    0 <= n < |steps| && AnsweredWith(Run(steps[..n]), steps[n], id).Some?
  }

  ghost predicate TurnedAway(steps: seq<Step>, id: nat) { exists n :: TurnedAwayAt(steps, n, id) }

  /** Refused, or about to be. */
  predicate Refused(s: State, id: nat) { id in s.refused || (s.main.Refusing? && s.main.id == id) }

  lemma AdvanceRefuses(s: State, outcome: Outcome, id: nat)
    requires !s.gone && !Decides(s.main)
    ensures Refused(Advance(s, outcome), id) <==> Refused(s, id) || AnsweredWith(s, MainGoes(outcome), id).Some?
    ensures AnsweredWith(s, MainGoes(outcome), id).Some? ==>
      Advance(s, outcome).main == Refusing(id, AnsweredWith(s, MainGoes(outcome), id).value)
  {
  }

  lemma DecidingRefuses(s: State, outcome: Outcome, id: nat)
    requires Known(s) && !s.gone && (s.main.Waiting? || s.main.Checked? || s.main.Spawning?)
    ensures Refused(MainStep(s, outcome), id) <==> Refused(s, id) || AnsweredWith(s, MainGoes(outcome), id).Some?
    ensures AnsweredWith(s, MainGoes(outcome), id).Some? ==>
      MainStep(s, outcome).main == Refusing(id, AnsweredWith(s, MainGoes(outcome), id).value)
  {
  }

  lemma MainRefuses(s: State, outcome: Outcome, id: nat)
    requires Known(s) && !s.gone
    ensures Refused(MainStep(s, outcome), id) <==> Refused(s, id) || AnsweredWith(s, MainGoes(outcome), id).Some?
    ensures AnsweredWith(s, MainGoes(outcome), id).Some? ==>
      MainStep(s, outcome).main == Refusing(id, AnsweredWith(s, MainGoes(outcome), id).value)
  {
    if !Decides(s.main) {
      AdvanceIs(s, outcome);
      AdvanceRefuses(s, outcome, id);
    } else if s.main.Waiting? || s.main.Checked? || s.main.Spawning? {
      DecidingRefuses(s, outcome, id);
    } else {
      TendingMoves(s, outcome);
    }
  }

  lemma ReaderRefusesNone(s: State, step: Step, id: nat)
    requires Known(s) && !step.MainGoes?
    ensures Refused(Next(s, step), id) <==> Refused(s, id)
  {
  }

  lemma RefusedStep(s: State, step: Step, id: nat)
    requires Known(s)
    ensures Refused(Next(s, step), id) <==> Refused(s, id) || AnsweredWith(s, step, id).Some?
  {
    if step.MainGoes? {
      if !s.gone {
        MainRefuses(s, step.outcome, id);
      }
    } else {
      ReaderRefusesNone(s, step, id);
    }
  }

  lemma TurnedAwayNext(steps: seq<Step>, id: nat)
    requires steps != []
    ensures var front, last := steps[..|steps| - 1], |steps| - 1;
      TurnedAway(steps, id) <==> TurnedAway(front, id) || AnsweredWith(Run(front), steps[last], id).Some?
  {
    var front, last := steps[..|steps| - 1], |steps| - 1;
    if TurnedAway(front, id) {
      var n :| TurnedAwayAt(front, n, id);
      assert front[..n] == steps[..n];
      assert TurnedAwayAt(steps, n, id);
    }
    if AnsweredWith(Run(front), steps[last], id).Some? {
      assert TurnedAwayAt(steps, last, id);
    }
    if TurnedAway(steps, id) {
      var n :| TurnedAwayAt(steps, n, id);
      if n < last {
        assert front[..n] == steps[..n];
        assert TurnedAwayAt(front, n, id);
      }
    }
  }

  lemma RefusedNext(steps: seq<Step>, id: nat)
    requires steps != []
    ensures var front, last := steps[..|steps| - 1], |steps| - 1;
      Refused(Run(steps), id) <==> Refused(Run(front), id) || AnsweredWith(Run(front), steps[last], id).Some?
  {
    RunNext(steps);
    RefusedStep(Run(steps[..|steps| - 1]), steps[|steps| - 1], id);
  }

  /** A start is refused if and only if one of the steps so far has turned it away. */
  lemma {:induction false} RefusedExactly(steps: seq<Step>, id: nat)
    ensures Refused(Run(steps), id) <==> TurnedAway(steps, id)
  {
    if steps != [] {
      RefusedExactly(steps[..|steps| - 1], id);
      RefusedNext(steps, id);
      TurnedAwayNext(steps, id);
    } else {
      assert Run(steps) == INITIAL;
    }
  }

  /** And the refusal sets the state to what it was answered with. */
  lemma RefusalAnswers(steps: seq<Step>, outcome: Outcome, next: Outcome, id: nat)
    requires AnsweredWith(Run(steps), MainGoes(outcome), id).Some?
    ensures var after := Next(Run(steps), MainGoes(outcome));
      && Known(after)
      && Next(after, MainGoes(next)).value == AnsweredWith(Run(steps), MainGoes(outcome), id).value
      && Next(after, MainGoes(next)).main == Looping && id in Next(after, MainGoes(next)).refused
  {
    StaysKnown(Run(steps), MainGoes(outcome));
    MainRefuses(Run(steps), outcome, id);
    RefusalSets(Next(Run(steps), MainGoes(outcome)), next);
  }

  lemma RefusalSets(s: State, outcome: Outcome)
    requires Known(s) && s.main.Refusing? && !s.gone
    ensures Next(s, MainGoes(outcome))
         == s.(value := s.main.shown, refused := s.refused + {s.main.id}, main := Looping)
  {
  }

  // --- A ready worker takes the next start ---------------------------------

  /** The main loop makes a step and what it tries succeeds. */
  ghost function Goes(s: State): State
    requires Known(s) && !s.gone
  {
    MainStep(s, Succeeds)
  }

  lemma TakesFirst(s: State, id: nat, run: string)
    requires Known(s) && !s.gone && s.main.Looping? && !s.shutdownRequested
    requires s.queue != [] && s.queue[0] == Begin(id, run)
    ensures var waiting := s.(main := Waiting);
      && Goes(s) == waiting && Known(waiting)
      && Goes(waiting) == s.(main := Got(id, run), queue := s.queue[1..])
  {
    AdvanceIs(s, Succeeds);
  }

  lemma PassesCheck(s: State, id: nat, run: string)
    requires Known(s) && !s.gone && s.main == Got(id, run) && s.value.Ready? && run != ""
    ensures var checked := s.(main := Checked(id, run, Ready));
      Goes(s) == checked && Known(checked) && Goes(checked) == s.(main := Opening(id))
  {
    AdvanceIs(s, Succeeds);
  }

  lemma OpensAndSpawns(s: State, id: nat)
    requires Known(s) && !s.gone && s.main == Opening(id)
    ensures var announcing, spawning := s.(main := Announcing(id)), s.(main := Spawning(id), value := Starting);
      && Goes(s) == announcing && Known(announcing) && Goes(announcing) == spawning && Known(spawning)
      && Goes(spawning) == spawning.(main := Spawned(id), children := s.children[id := Alive])
  {
    AdvanceIs(s, Succeeds);
    AdvanceIs(s.(main := Announcing(id)), Succeeds);
  }

  lemma OneGo(steps: seq<Step>, next: State) returns (more: seq<Step>)
    requires !Run(steps).gone && Goes(Run(steps)) == next
    ensures more == steps + [MainGoes(Succeeds)] && Run(more) == next
  {
    more := Extend(steps, MainGoes(Succeeds));
  }

  lemma ReadyAdmitsNext(steps: seq<Step>, id: nat, run: string) returns (more: seq<Step>)
    requires var s := Run(steps);
      && !s.gone && s.main.Looping? && s.value.Ready? && !s.shutdownRequested
      && s.queue != [] && s.queue[0] == Begin(id, run) && run != ""
    ensures more == steps + seq(4, _ => MainGoes(Succeeds))
    ensures Run(more) == Run(steps).(main := Opening(id), queue := Run(steps).queue[1..])
  {
    var s := Run(steps);
    var taken := s.(queue := s.queue[1..]);
    TakesFirst(s, id, run);
    more := OneGo(steps, s.(main := Waiting));
    more := OneGo(more, taken.(main := Got(id, run)));
    PassesCheck(taken.(main := Got(id, run)), id, run);
    more := OneGo(more, taken.(main := Checked(id, run, Ready)));
    more := OneGo(more, taken.(main := Opening(id)));
  }

  /**
   A start at the head of the queue of a ready worker between two sessions is
   spawned by the next seven steps of the main loop, if it has a run id.
   */
  lemma ReadyTakesNext(steps: seq<Step>, id: nat, run: string) returns (more: seq<Step>)
    requires var s := Run(steps);
      && !s.gone && s.main.Looping? && s.value.Ready? && !s.shutdownRequested
      && s.queue != [] && s.queue[0] == Begin(id, run) && run != ""
    ensures more == steps + seq(7, _ => MainGoes(Succeeds))
    ensures var s := Run(steps);
      Run(more)
      == s.(main := Spawned(id), value := Starting, queue := s.queue[1..], children := s.children[id := Alive])
  {
    more := ReadyAdmitsNext(steps, id, run);
    var s := Run(more);
    OpensAndSpawns(s, id);
    more := OneGo(more, s.(main := Announcing(id)));
    more := OneGo(more, s.(main := Spawning(id), value := Starting));
    more := OneGo(more, s.(main := Spawned(id), value := Starting, children := s.children[id := Alive]));
  }

  // --- After a bad exit ----------------------------------------------------

  /** No start is past the check, and none is about to pass it. */
  predicate NobodyAdmitted(s: State) {
    match s.main
    case Checked(_, _, seen) => !seen.Ready?
    case Opening(_) => false
    case Announcing(_) => false
    case Spawning(_) => false
    case _ => true
  }

  /** Only the main loop ever makes the state ready. */
  lemma NobodyAdmittedStep(s: State, step: Step)
    requires Known(s) && NobodyAdmitted(s) && !s.value.Ready?
    ensures NobodyAdmitted(Next(s, step)) && Next(s, step).children.Keys == s.children.Keys
  {
    if step.MainGoes? {
      MainAdmitsNobody(s, step.outcome);
    } else {
      ReaderSpawnsNone(s, step);
    }
  }

  lemma AdvanceAdmitsNobody(s: State, outcome: Outcome)
    requires NobodyAdmitted(s) && !s.value.Ready? && !Decides(s.main)
    ensures NobodyAdmitted(Advance(s, outcome))
  {
  }

  lemma MainAdmitsNobody(s: State, outcome: Outcome)
    requires Known(s) && NobodyAdmitted(s) && !s.value.Ready?
    ensures NobodyAdmitted(MainStep(s, outcome)) && MainStep(s, outcome).children.Keys == s.children.Keys
  {
    if !Decides(s.main) {
      AdvanceIs(s, outcome);
      AdvanceAdmitsNobody(s, outcome);
    } else if s.main.Waiting? || s.main.Checked? {
    } else {
      TendingMoves(s, outcome);
    }
  }

  lemma ReaderSpawnsNone(s: State, step: Step)
    requires Known(s) && !step.MainGoes?
    ensures Next(s, step).children.Keys == s.children.Keys && Next(s, step).main == s.main
  {
    match step
    case ReaderGoes =>
      if s.reader.Terminating? && s.reader.child.Some? {
        assert Terminate(s, s.reader.child.value).children.Keys == s.children.Keys;
      }
    case _ =>
  }

  ghost predicate NeverReady(steps: seq<Step>, n: nat) {
    forall k :: n <= k <= |steps| ==> !Run(steps[..k]).value.Ready?
  }

  lemma {:induction false} NobodySpawned(steps: seq<Step>, n: nat)
    requires n <= |steps| && NobodyAdmitted(Run(steps[..n])) && NeverReady(steps, n)
    ensures NobodyAdmitted(Run(steps)) && Run(steps).children.Keys == Run(steps[..n]).children.Keys
    decreases |steps|
  {
    if n == |steps| {
      assert steps[..n] == steps;
    } else {
      var front := steps[..|steps| - 1];
      assert front[..n] == steps[..n];
      forall k | n <= k <= |front| ensures !Run(front[..k]).value.Ready? {
        assert front[..k] == steps[..k];
      }
      NobodySpawned(front, n);
      assert front[..|front|] == front;
      NobodyAdmittedStep(Run(front), steps[|front|]);
    }
  }

  predicate Unready(s: State) { s.main.Judging? && !s.main.seen.Ready? ==> !s.value.Ready? }

  lemma UnreadyStep(s: State, step: Step)
    requires Known(s) && Unready(s)
    ensures Unready(Next(s, step))
  {
    if step.MainGoes? {
      if !s.gone {
        MainReads(s, step.outcome);
      }
    } else {
      ReaderSpawnsNone(s, step);
      if !s.value.Ready? {
        ReaderReadiesNone(s, step);
      }
    }
  }

  /** While a session is judged the state has not become ready since it was read. */
  lemma {:induction false} JudgedUnready(steps: seq<Step>)
    ensures Unready(Run(steps))
  {
    if steps != [] {
      JudgedUnready(steps[..|steps| - 1]);
      RunNext(steps);
      UnreadyStep(Run(steps[..|steps| - 1]), steps[|steps| - 1]);
    }
  }

  lemma ReaderReadiesNone(s: State, step: Step)
    requires Known(s) && !step.MainGoes? && !s.value.Ready?
    ensures !Next(s, step).value.Ready?
  {
  }

  lemma AdvanceReads(s: State, outcome: Outcome)
    requires !Decides(s.main)
    ensures Advance(s, outcome).main.Judging? ==> Advance(s, outcome).main.seen == Advance(s, outcome).value
  {
  }

  lemma MainReads(s: State, outcome: Outcome)
    requires Known(s)
    ensures var after := MainStep(s, outcome); after.main.Judging? ==> after.main.seen == after.value
  {
    if !Decides(s.main) {
      AdvanceIs(s, outcome);
      AdvanceReads(s, outcome);
    } else if s.main.Waiting? || s.main.Checked? || s.main.Spawning? {
    } else {
      TendingMoves(s, outcome);
    }
  }

  /**
   After a session that ended badly the worker is not ready, and until
   something makes it so again no further session is spawned.
   */
  lemma BadExitEndsSpawning(steps: seq<Step>, n: nat)
    requires n < |steps| && steps[n].MainGoes?
    requires var s := Run(steps[..n]); s.main.Judging? && !s.gone && Crashed(s, s.main.id)
    ensures !Run(steps[..n + 1]).value.Ready?
    ensures NeverReady(steps, n + 1) ==> Run(steps).children.Keys == Run(steps[..n]).children.Keys
  {
    assert steps[..n + 1][..n] == steps[..n];
    RunNext(steps[..n + 1]);
    JudgedUnready(steps[..n]);
    BadExitJudged(Run(steps[..n]), steps[n].outcome);
    if NeverReady(steps, n + 1) {
      NobodySpawned(steps, n + 1);
    }
  }

  lemma BadExitJudged(s: State, outcome: Outcome)
    requires Known(s) && s.main.Judging? && !s.gone && Crashed(s, s.main.id) && Unready(s)
    ensures var after := Next(s, MainGoes(outcome));
      !after.value.Ready? && after.main.Looping? && after.children == s.children
  {
  }

  // --- Starts are served in order ------------------------------------------

  ghost predicate QueuedAt(s: State, id: nat, i: int) {
    0 <= i < |s.queue| && s.queue[i].Begin? && s.queue[i].id == id
  }

  ghost predicate Queued(s: State, id: nat) { exists i :: QueuedAt(s, id, i) }

  /** The main loop has taken the start, or is done with it. */
  ghost predicate Served(s: State, id: nat) { InMain(s, id) || id in s.children || id in s.refused }

  /** What holds of two starts, the first read earlier. */
  ghost predicate ServedInOrder(s: State, a: nat, b: nat) {
    && (InReader(s, a) ==> s.next == a + 1)
    && (Queued(s, b) ==> !InReader(s, a))
    && (forall i, j :: QueuedAt(s, a, i) && QueuedAt(s, b, j) ==> i < j)
    && (Served(s, b) ==> !InReader(s, a) && !Queued(s, a))
  }

  /** A start that is nowhere is not queued, and none that was read later is anywhere. */
  lemma NotYetRead(steps: seq<Step>, id: nat)
    requires id >= Run(steps).next
    ensures var s := Run(steps); !InReader(s, id) && !Queued(s, id) && !Served(s, id)
  {
    AlwaysSafe(steps, id);
    var s := Run(steps);
    if Queued(s, id) {
      var i :| QueuedAt(s, id, i);
      InQueueCounts(s.queue, id, i);
    }
  }

  lemma {:induction false} InQueueCounts(queue: seq<CvSupervisor.Queued>, id: nat, i: nat)
    requires i < |queue| && queue[i].Begin? && queue[i].id == id
    ensures InQueue(queue, id) > 0
  {
    if i > 0 {
      InQueueCounts(queue[1..], id, i - 1);
    }
  }

  /** Nothing has moved that matters to the order. */
  ghost predicate SamePlaces(s: State, after: State, id: nat) {
    && (InReader(after, id) ==> InReader(s, id)) && (Served(after, id) <==> Served(s, id))
  }

  lemma MovesKeepOrder(s: State, after: State, a: nat, b: nat)
    requires ServedInOrder(s, a, b) && SamePlaces(s, after, a) && SamePlaces(s, after, b)
    requires after.queue == s.queue && (InReader(after, a) ==> after.next == s.next)
    ensures ServedInOrder(after, a, b)
  {
    forall id, i ensures QueuedAt(after, id, i) <==> QueuedAt(s, id, i) {}
    assert Queued(after, a) == Queued(s, a) && Queued(after, b) == Queued(s, b);
  }

  lemma ReadKeepsOrder(s: State, line: Line, a: nat, b: nat)
    requires a < b && ServedInOrder(s, a, b)
    requires b >= s.next ==> !InReader(s, b) && !Queued(s, b) && !Served(s, b)
    ensures ServedInOrder(Read(s, line), a, b)
  {
    var after := Read(s, line);
    assert after.queue == s.queue;
    forall id, i ensures QueuedAt(after, id, i) <==> QueuedAt(s, id, i) {}
    assert Queued(after, a) == Queued(s, a) && Queued(after, b) == Queued(s, b);
  }

  /** Appending what the reader holds, or the order to quit. */
  lemma AppendKeepsOrder(s: State, after: State, last: CvSupervisor.Queued, a: nat, b: nat)
    requires a < b && ServedInOrder(s, a, b) && SamePlaces(s, after, a) && SamePlaces(s, after, b)
    requires after.queue == s.queue + [last] && !InReader(after, a)
    requires last.Begin? ==> InReader(s, last.id) && (b >= s.next ==> last.id != b)
    ensures ServedInOrder(after, a, b)
  {
    forall id, i | QueuedAt(after, id, i)
      ensures QueuedAt(s, id, i) || (i == |s.queue| && last.Begin? && id == last.id)
    {
    }
    if Queued(after, a) && !InReader(s, a) {
      var i :| QueuedAt(after, a, i);
      assert QueuedAt(s, a, i);
    }
  }

  lemma TakeKeepsOrder(s: State, a: nat, b: nat)
    requires a < b && ServedInOrder(s, a, b) && s.main.Waiting?
    ensures ServedInOrder(TakeNext(s), a, b)
  {
    var after := TakeNext(s);
    forall id, i | s.queue != [] && QueuedAt(after, id, i) ensures QueuedAt(s, id, i + 1) {}
    if s.queue != [] {
      assert Queued(after, a) ==> Queued(s, a);
      assert Queued(after, b) ==> Queued(s, b);
      if s.queue[0].Begin? {
        assert QueuedAt(s, s.queue[0].id, 0);
      }
    }
  }

  lemma ReaderKeepsOrder(s: State, a: nat, b: nat)
    requires a < b && Known(s) && ServedInOrder(s, a, b)
    requires b >= s.next ==> !InReader(s, b)
    ensures ServedInOrder(ReaderStep(s), a, b)
  {
    var after := ReaderStep(s);
    ReaderPlaces(s, a);
    ReaderPlaces(s, b);
    if s.reader.Cleared? {
      AppendKeepsOrder(s, after, Begin(s.reader.id, s.reader.run), a, b);
    } else if s.reader.Sent? && s.reader.shutdown {
      AppendKeepsOrder(s, after, Quit, a, b);
    } else {
      MovesKeepOrder(s, after, a, b);
    }
  }

  lemma ReaderPlaces(s: State, id: nat)
    requires Known(s)
    ensures SamePlaces(s, ReaderStep(s), id) && ReaderStep(s).next == s.next
    ensures s.reader.Cleared? ==> ReaderStep(s).reader.Idle?
    ensures !s.reader.Cleared? && !(s.reader.Sent? && s.reader.shutdown) ==> ReaderStep(s).queue == s.queue
  {
    if s.reader.Terminating? {
      TerminatingMoves(s);
    } else if s.reader.Sending? {
      SendingMoves(s);
    }
  }

  lemma TerminatingMoves(s: State)
    requires SlotKnown(s) && s.reader.Terminating?
    ensures var after := ReaderStep(s);
      && after.children.Keys == s.children.Keys && after.main == s.main && after.refused == s.refused
      && after.queue == s.queue && after.next == s.next && after.reader.Exiting?
  {
  }

  lemma SendingMoves(s: State)
    requires SlotKnown(s) && s.reader.Sending?
    ensures var after := ReaderStep(s);
      && after.children == s.children && after.main == s.main && after.refused == s.refused
      && after.queue == s.queue && after.next == s.next && after.reader.Sent?
  {
  }

  lemma AdvancePlaces(s: State, outcome: Outcome, id: nat)
    requires !Decides(s.main)
    ensures SamePlaces(s, Advance(s, outcome), id)
    ensures Advance(s, outcome).queue == s.queue && Advance(s, outcome).next == s.next
  {
  }

  lemma TendingPlaces(s: State, outcome: Outcome, id: nat)
    requires Known(s) && (s.main.Spawned? || s.main.Relaying? || s.main.Judging? || s.main.Leaving?)
    ensures SamePlaces(s, MainStep(s, outcome), id)
    ensures MainStep(s, outcome).queue == s.queue && MainStep(s, outcome).next == s.next
  {
    TendingMoves(s, outcome);
  }

  lemma MainKeepsOrder(s: State, outcome: Outcome, a: nat, b: nat)
    requires a < b && Known(s) && ServedInOrder(s, a, b)
    ensures ServedInOrder(MainStep(s, outcome), a, b)
  {
    if !Decides(s.main) {
      AdvanceIs(s, outcome);
      AdvancePlaces(s, outcome, a);
      AdvancePlaces(s, outcome, b);
      MovesKeepOrder(s, Advance(s, outcome), a, b);
    } else if s.main.Waiting? {
      TakeKeepsOrder(s, a, b);
    } else if s.main.Checked? || s.main.Spawning? {
      MovesKeepOrder(s, MainStep(s, outcome), a, b);
    } else {
      TendingPlaces(s, outcome, a);
      TendingPlaces(s, outcome, b);
      MovesKeepOrder(s, MainStep(s, outcome), a, b);
    }
  }

  lemma StepKeepsOrder(s: State, step: Step, a: nat, b: nat)
    requires a < b && Known(s) && ServedInOrder(s, a, b)
    requires b >= s.next ==> !InReader(s, b) && !Queued(s, b) && !Served(s, b)
    ensures ServedInOrder(Next(s, step), a, b)
  {
    match step
    case Input(line) => ReadKeepsOrder(s, line, a, b);
    case ReaderGoes => ReaderKeepsOrder(s, a, b);
    case MainGoes(outcome) => MainKeepsOrder(s, outcome, a, b);
    case ChildGoes(id, code) => MovesKeepOrder(s, Next(s, step), a, b);
  }

  lemma OrderNext(steps: seq<Step>, a: nat, b: nat)
    requires a < b && steps != [] && ServedInOrder(Run(steps[..|steps| - 1]), a, b)
    ensures ServedInOrder(Run(steps), a, b)
  {
    var front := steps[..|steps| - 1];
    if b >= Run(front).next {
      NotYetRead(front, b);
    }
    RunNext(steps);
    StepKeepsOrder(Run(front), steps[|front|], a, b);
  }

  /** Starts are served in the order in which they are read: none is taken while an earlier one waits. */
  lemma {:induction false} StartsInOrder(steps: seq<Step>, a: nat, b: nat)
    requires a < b
    ensures ServedInOrder(Run(steps), a, b)
  {
    if steps != [] {
      var front := steps[..|steps| - 1];
      StartsInOrder(front, a, b);
      OrderNext(steps, a, b);
    } else {
      assert Run(steps) == INITIAL;
    }
  }

  // --- After a shutdown ----------------------------------------------------

  /** The shutdown flag is up, or the reader has the shutdown in its hand. */
  predicate ShutdownHeld(s: State) {
    s.shutdownRequested || ((s.reader.GotStop? || s.reader.Flagged?) && s.reader.shutdown)
  }

  lemma HeldStep(s: State, step: Step)
    requires Known(s) && ShutdownHeld(s)
    ensures ShutdownHeld(Next(s, step))
  {
    if step.MainGoes? {
      MainKeepsReader(s, step.outcome);
    }
  }

  lemma MainKeepsReader(s: State, outcome: Outcome)
    requires Known(s)
    ensures MainStep(s, outcome).reader == s.reader && MainStep(s, outcome).shutdownRequested == s.shutdownRequested
  {
    if !Decides(s.main) {
      AdvanceIs(s, outcome);
      AdvanceKeepsReader(s, outcome);
    } else if s.main.Waiting? || s.main.Checked? || s.main.Spawning? {
    } else {
      TendingKeepsReader(s, outcome);
    }
  }

  lemma AdvanceKeepsReader(s: State, outcome: Outcome)
    ensures Advance(s, outcome).reader == s.reader && Advance(s, outcome).shutdownRequested == s.shutdownRequested
  {
  }

  lemma TendingKeepsReader(s: State, outcome: Outcome)
    requires Known(s) && (s.main.Spawned? || s.main.Relaying? || s.main.Judging? || s.main.Leaving?)
    ensures MainStep(s, outcome).reader == s.reader && MainStep(s, outcome).shutdownRequested == s.shutdownRequested
  {
    match s.main
    case Leaving => LeavingKeepsReader(s);
    case Spawned(id) => RegisteringKeepsReader(s, id);
    case _ =>
  }

  lemma LeavingKeepsReader(s: State)
    requires Known(s)
    ensures Leave(s).reader == s.reader && Leave(s).shutdownRequested == s.shutdownRequested
  {
  }

  lemma RegisteringKeepsReader(s: State, id: nat)
    requires id in s.children
    ensures Register(s, id).reader == s.reader && Register(s, id).shutdownRequested == s.shutdownRequested
  {
  }

  lemma HeldNext(steps: seq<Step>)
    requires steps != [] && ShutdownHeld(Run(steps[..|steps| - 1]))
    ensures ShutdownHeld(Run(steps))
  {
    RunNext(steps);
    HeldStep(Run(steps[..|steps| - 1]), steps[|steps| - 1]);
  }

  /** A shutdown that is read is flagged for good, as soon as the reader has taken two more steps. */
  lemma {:induction false} ShutdownIsFlagged(steps: seq<Step>, n: nat)
    requires n < |steps| && steps[n] == Input(Shutdown) && Run(steps[..n]).reader.Idle? && !Run(steps[..n]).gone
    ensures ShutdownHeld(Run(steps))
    decreases |steps|
  {
    var front := steps[..|steps| - 1];
    if n == |front| {
      RunNext(steps);
    } else {
      assert front[..n] == steps[..n];
      ShutdownIsFlagged(front, n);
      HeldNext(steps);
    }
  }

  /** The main loop has a shutdown before it, between two sessions. */
  predicate ShuttingDown(s: State) {
    s.shutdownRequested && (s.main.Looping? || s.main.Emptied? || s.main.Leaving? || s.main.Left?)
  }

  lemma ShutdownStep(s: State, step: Step)
    requires Known(s) && ShuttingDown(s)
    ensures ShuttingDown(Next(s, step)) && Next(s, step).children.Keys == s.children.Keys
  {
    if step.MainGoes? {
      if s.main.Leaving? {
        LeavingMoves(s);
      }
    } else {
      ReaderSpawnsNone(s, step);
      ReaderKeepsShutdown(s, step);
    }
  }

  lemma ReaderKeepsShutdown(s: State, step: Step)
    requires Known(s) && !step.MainGoes? && s.shutdownRequested
    ensures Next(s, step).shutdownRequested
  {
  }

  /** Once a shutdown has been flagged no session follows the one that runs. */
  lemma {:induction false} ShutdownEndsSpawning(steps: seq<Step>, n: nat)
    requires n <= |steps| && ShuttingDown(Run(steps[..n]))
    ensures ShuttingDown(Run(steps)) && Run(steps).children.Keys == Run(steps[..n]).children.Keys
    decreases |steps|
  {
    if n == |steps| {
      assert steps[..n] == steps;
    } else {
      var front := steps[..|steps| - 1];
      assert front[..n] == steps[..n];
      ShutdownEndsSpawning(front, n);
      ShutdownNext(steps);
    }
  }

  lemma ShutdownNext(steps: seq<Step>)
    requires steps != [] && ShuttingDown(Run(steps[..|steps| - 1]))
    ensures ShuttingDown(Run(steps)) && Run(steps).children.Keys == Run(steps[..|steps| - 1]).children.Keys
  {
    RunNext(steps);
    ShutdownStep(Run(steps[..|steps| - 1]), steps[|steps| - 1]);
  }
}
