/** No stop is lost, no child is told to stop for nothing, and no start is lost, in any interleaving. */
module CvSupervisorProperties {
  import opened CvSupervisor
  import opened Options

  // --- What the log says about one start -----------------------------------

  ghost predicate IsRegistered(log: seq<Event>, id: nat, before: nat) {
    exists m :: 0 <= m < before && m < |log| && log[m] == Registered(id)
  }

  /** A stop or shutdown was read after this start. */
  ghost predicate StopFollows(log: seq<Event>, id: nat, i: int, j: int) {
    0 <= i < j < |log| && log[i] == StartRead(id) && log[j] == StopRead
  }

  /** From `j` on no further start was read before the child was registered. */
  ghost predicate NotOvertaken(log: seq<Event>, id: nat, j: int) {
    forall k :: 0 <= j < k < |log| && log[k].StartRead? ==> IsRegistered(log, id, k)
  }

  ghost predicate StopAt(log: seq<Event>, id: nat, j: int) {
    exists i :: StopFollows(log, id, i, j)
  }

  ghost predicate Asked(log: seq<Event>, id: nat) {
    exists j :: StopAt(log, id, j)
  }

  ghost predicate OwedAt(log: seq<Event>, id: nat, j: int) {
    StopAt(log, id, j) && NotOvertaken(log, id, j)
  }

  /**
   A stop or shutdown was read after the start, and no further start was read
   between that stop and the registration of the start's child.
   */
  ghost predicate Owed(log: seq<Event>, id: nat) {
    exists j :: OwedAt(log, id, j)
  }

  /** And such a stop has been carried to the child slot. */
  ghost predicate OwedAndCarried(log: seq<Event>, id: nat) {
    exists j, c :: OwedAt(log, id, j) && CarriedAt(log, j, c)
  }

  ghost predicate CarriedAt(log: seq<Event>, j: int, c: int) {
    j < c && 0 <= c < |log| && log[c] == StopCarried
  }

  /** The child was registered before the reader read the slot for the last time. */
  ghost predicate RegisteredInTime(log: seq<Event>, id: nat) {
    exists m, n :: 0 <= m < n < |log| && log[m] == Registered(id) && log[n] == SlotRead
  }

  /** The last write of the stop flag before `m` is the one at `k`, and it sets the flag. */
  ghost predicate SetAt(log: seq<Event>, k: int, m: int) {
    0 <= k < m <= |log| && log[k] == FlagSet && forall j :: k < j < m ==> log[j] != FlagCleared
  }

  ghost predicate FlagUp(log: seq<Event>, m: int) {
    exists k :: SetAt(log, k, m)
  }

  ghost predicate CarriedSince(log: seq<Event>, m: int) {
    exists c :: CarriedAt(log, m, c)
  }

  ghost predicate DueAt(log: seq<Event>, id: nat, m: int) {
    0 <= m < |log| && log[m] == Registered(id) && (FlagUp(log, m) || CarriedSince(log, m))
  }

  /**
   The stop flag was up when the child was registered, its last write before
   that having set it, or a stop has been carried to the slot since.
   */
  ghost predicate Due(log: seq<Event>, id: nat) {
    exists m :: DueAt(log, id, m)
  }

  // --- The same, kept up to date event by event ----------------------------

  ghost function Front(log: seq<Event>): seq<Event>
    requires log != []
  {
    log[..|log| - 1]
  }

  ghost function Last(log: seq<Event>): Event
    requires log != []
  {
    log[|log| - 1]
  }

  ghost predicate StartedYet(log: seq<Event>, id: nat) { StartRead(id) in log }

  ghost predicate RegisteredYet(log: seq<Event>, id: nat) { Registered(id) in log }

  ghost predicate AskedYet(log: seq<Event>, id: nat) {
    log != [] && (AskedYet(Front(log), id) || (Last(log) == StopRead && StartedYet(Front(log), id)))
  }

  ghost predicate OwedYet(log: seq<Event>, id: nat) {
    log != [] &&
    match Last(log)
    case StartRead(_) => OwedYet(Front(log), id) && RegisteredYet(Front(log), id)
    case StopRead => OwedYet(Front(log), id) || StartedYet(Front(log), id)
    case _ => OwedYet(Front(log), id)
  }

  ghost predicate CarriedYet(log: seq<Event>, id: nat) {
    log != [] &&
    match Last(log)
    case StartRead(_) => CarriedYet(Front(log), id) && RegisteredYet(Front(log), id)
    case StopCarried => OwedYet(Front(log), id)
    case _ => CarriedYet(Front(log), id)
  }

  ghost predicate InTimeYet(log: seq<Event>, id: nat) {
    log != [] && (InTimeYet(Front(log), id) || (Last(log) == SlotRead && RegisteredYet(Front(log), id)))
  }

  /** The last command read, apart from what could not be used, is a stop or shutdown. */
  ghost predicate StopLast(log: seq<Event>) {
    log != [] && (Last(log) == StopRead || (!Last(log).StartRead? && StopLast(Front(log))))
  }

  ghost predicate FlagYet(log: seq<Event>) {
    log != [] && (Last(log) == FlagSet || (Last(log) != FlagCleared && FlagYet(Front(log))))
  }

  ghost predicate DueYet(log: seq<Event>, id: nat) {
    log != [] &&
    (|| DueYet(Front(log), id)
     || (Last(log) == StopCarried && RegisteredYet(Front(log), id))
     || (Last(log) == Registered(id) && FlagYet(Front(log))))
  }

  datatype Duty = Duty(
    started: bool, asked: bool, owed: bool, carried: bool, registered: bool, inTime: bool, lastIsStop: bool,
    flag: bool, due: bool)

  ghost function DutyOf(log: seq<Event>, id: nat): Duty {
    Duty(StartedYet(log, id), AskedYet(log, id), OwedYet(log, id), CarriedYet(log, id), RegisteredYet(log, id),
         InTimeYet(log, id), StopLast(log), FlagYet(log), DueYet(log, id))
  }

  ghost function After(d: Duty, id: nat, event: Event): Duty {
    match event
    case StartRead(i) =>
      d.(started := d.started || i == id, owed := d.owed && d.registered, carried := d.carried && d.registered,
         lastIsStop := false)
    case StopRead => d.(asked := d.asked || d.started, owed := d.owed || d.started, lastIsStop := true)
    case FlagCleared => d.(flag := false)
    case FlagSet => d.(flag := true)
    case StopCarried => d.(carried := d.owed, due := d.due || d.registered)
    case Registered(i) => d.(registered := d.registered || i == id, due := d.due || (i == id && d.flag))
    case SlotRead => d.(inTime := d.inTime || d.registered)
  }

  lemma RegisteredInLog(log: seq<Event>, id: nat)
    ensures RegisteredYet(log, id) <==> IsRegistered(log, id, |log|)
  {
  }

  lemma StopAtKept(log: seq<Event>, id: nat, j: int)
    requires log != []
    ensures j < |log| - 1 ==> (StopAt(log[..|log| - 1], id, j) <==> StopAt(log, id, j))
    ensures !StopAt(log[..|log| - 1], id, |log| - 1)
  {
    var front := log[..|log| - 1];
    if StopAt(front, id, j) {
      var i :| StopFollows(front, id, i, j);
      assert StopFollows(log, id, i, j);
    }
    if j < |front| && StopAt(log, id, j) {
      var i :| StopFollows(log, id, i, j);
      assert StopFollows(front, id, i, j);
    }
  }

  lemma StopAtLast(log: seq<Event>, id: nat)
    requires log != []
    ensures StopAt(log, id, |log| - 1) <==> log[|log| - 1] == StopRead && StartedYet(log[..|log| - 1], id)
  {
    var front, last := log[..|log| - 1], |log| - 1;
    if StopAt(log, id, last) {
      var i :| StopFollows(log, id, i, last);
      assert front[i] == StartRead(id);
    }
    if log[last] == StopRead && StartedYet(front, id) {
      var i :| 0 <= i < |front| && front[i] == StartRead(id);
      assert StopFollows(log, id, i, last);
    }
  }

  /** Nothing changes for an older stop unless a start is read before the registration. */
  lemma NotOvertakenKept(log: seq<Event>, id: nat, j: int)
    requires log != [] && 0 <= j < |log| - 1
    ensures NotOvertaken(log, id, j)
       <==> NotOvertaken(log[..|log| - 1], id, j)
            && (log[|log| - 1].StartRead? ==> RegisteredYet(log[..|log| - 1], id))
  {
    var front, last := log[..|log| - 1], |log| - 1;
    RegisteredInLog(front, id);
    forall k | 0 <= k < |log| ensures k <= last ==> IsRegistered(log, id, k) == IsRegistered(front, id, k) {
      if IsRegistered(log, id, k) {
        var m :| 0 <= m < k && log[m] == Registered(id);
        assert front[m] == Registered(id);
      }
      if IsRegistered(front, id, k) {
        var m :| 0 <= m < k && m < |front| && front[m] == Registered(id);
        assert log[m] == Registered(id);
      }
    }
    forall k | 0 <= k < last ensures front[k] == log[k] {}
  }

  lemma OwedAtKept(log: seq<Event>, id: nat, j: int)
    requires log != [] && j < |log| - 1
    ensures OwedAt(log, id, j)
       <==> OwedAt(log[..|log| - 1], id, j)
            && (log[|log| - 1].StartRead? ==> RegisteredYet(log[..|log| - 1], id))
  {
    StopAtKept(log, id, j);
    if 0 <= j {
      NotOvertakenKept(log, id, j);
    }
  }

  /** The bookkeeping says exactly what the positions in the log say. */
  lemma {:induction false} DutyMeans(log: seq<Event>, id: nat)
    ensures AskedYet(log, id) <==> Asked(log, id)
    ensures OwedYet(log, id) <==> Owed(log, id)
  {
    if log != [] {
      var front, last := log[..|log| - 1], |log| - 1;
      DutyMeans(front, id);
      StopAtLast(log, id);
      if Asked(front, id) {
        var j :| StopAt(front, id, j);
        StopAtKept(log, id, j);
      }
      if Owed(front, id) {
        var j :| OwedAt(front, id, j);
        OwedAtKept(log, id, j);
      }
      if log[last] == StopRead && StartedYet(front, id) {
        assert OwedAt(log, id, last);
      }
      forall j | StopAt(log, id, j) ensures AskedYet(log, id) && (OwedAt(log, id, j) ==> OwedYet(log, id)) {
        if j < last {
          StopAtKept(log, id, j);
          OwedAtKept(log, id, j);
        } else {
          assert j == last;
        }
      }
    }
  }

  lemma {:induction false} CarriedMeans(log: seq<Event>, id: nat)
    ensures CarriedYet(log, id) <==> OwedAndCarried(log, id)
  {
    if log != [] {
      var front := log[..|log| - 1];
      CarriedMeans(front, id);
      DutyMeans(front, id);
      CarriedOlder(log, id);
      CarriedNewer(log, id);
    }
  }

  lemma CarriedOlder(log: seq<Event>, id: nat)
    requires log != []
    requires var front := log[..|log| - 1];
      OwedYet(front, id) == Owed(front, id) && CarriedYet(front, id) == OwedAndCarried(front, id)
    ensures CarriedYet(log, id) ==> OwedAndCarried(log, id)
  {
    var front, last := log[..|log| - 1], |log| - 1;
    if log[last].StopCarried? && Owed(front, id) {
      var j :| OwedAt(front, id, j);
      OwedAtKept(log, id, j);
      assert CarriedAt(log, j, last);
    } else if OwedAndCarried(front, id) {
      var j, c :| OwedAt(front, id, j) && CarriedAt(front, j, c);
      OwedAtKept(log, id, j);
      assert CarriedAt(log, j, c);
    }
  }

  lemma CarriedNewer(log: seq<Event>, id: nat)
    requires log != []
    requires var front := log[..|log| - 1];
      OwedYet(front, id) == Owed(front, id) && CarriedYet(front, id) == OwedAndCarried(front, id)
    ensures OwedAndCarried(log, id) ==> CarriedYet(log, id)
  {
    var front, last := log[..|log| - 1], |log| - 1;
    CarriedIsOwed(front, id);
    forall j, c | OwedAt(log, id, j) && CarriedAt(log, j, c) ensures CarriedYet(log, id) {
      OwedAtKept(log, id, j);
      if c < last {
        assert CarriedAt(front, j, c);
        assert OwedAndCarried(front, id);
      }
    }
  }

  lemma {:induction false} CarriedIsOwed(log: seq<Event>, id: nat)
    ensures CarriedYet(log, id) ==> OwedYet(log, id)
  {
    if log != [] {
      CarriedIsOwed(log[..|log| - 1], id);
    }
  }

  lemma {:induction false} InTimeMeans(log: seq<Event>, id: nat)
    ensures InTimeYet(log, id) <==> RegisteredInTime(log, id)
  {
    if log != [] {
      var front, last := log[..|log| - 1], |log| - 1;
      InTimeMeans(front, id);
      RegisteredInLog(front, id);
      if RegisteredInTime(front, id) {
        var m, n :| 0 <= m < n < |front| && front[m] == Registered(id) && front[n] == SlotRead;
        assert log[m] == Registered(id) && log[n] == SlotRead;
      }
      if log[last] == SlotRead && IsRegistered(front, id, |front|) {
        var m :| 0 <= m < |front| && front[m] == Registered(id);
        assert log[m] == Registered(id);
      }
      if RegisteredInTime(log, id) {
        var m, n :| 0 <= m < n < |log| && log[m] == Registered(id) && log[n] == SlotRead;
        assert front[m] == Registered(id);
        if n < last {
          assert front[n] == SlotRead;
        }
      }
    }
  }

  lemma {:induction false} FlagMeans(log: seq<Event>)
    ensures FlagYet(log) <==> FlagUp(log, |log|)
  {
    if log != [] {
      var front, last := log[..|log| - 1], |log| - 1;
      FlagMeans(front);
      if FlagUp(front, |front|) && log[last] != FlagCleared {
        var k :| SetAt(front, k, |front|);
        assert SetAt(log, k, |log|);
      }
      if log[last] == FlagSet {
        assert SetAt(log, last, |log|);
      }
      if FlagUp(log, |log|) && log[last] != FlagSet {
        var k :| SetAt(log, k, |log|);
        assert SetAt(front, k, |front|);
      }
    }
  }

  lemma FlagUpKept(log: seq<Event>, m: int)
    requires log != [] && m < |log|
    ensures FlagUp(log, m) <==> FlagUp(log[..|log| - 1], m)
  {
    var front := log[..|log| - 1];
    if FlagUp(log, m) {
      var k :| SetAt(log, k, m);
      assert SetAt(front, k, m);
    }
    if FlagUp(front, m) {
      var k :| SetAt(front, k, m);
      assert SetAt(log, k, m);
    }
  }

  lemma CarriedSinceKept(log: seq<Event>, m: int)
    requires log != [] && 0 <= m < |log| - 1
    ensures CarriedSince(log, m) <==> CarriedSince(log[..|log| - 1], m) || log[|log| - 1] == StopCarried
  {
    var front, last := log[..|log| - 1], |log| - 1;
    if CarriedSince(front, m) {
      var c :| CarriedAt(front, m, c);
      assert CarriedAt(log, m, c);
    }
    if log[last] == StopCarried {
      assert CarriedAt(log, m, last);
    }
    if CarriedSince(log, m) {
      var c :| CarriedAt(log, m, c);
      assert c == last || CarriedAt(front, m, c);
    }
  }

  lemma {:induction false} DueMeans(log: seq<Event>, id: nat)
    ensures DueYet(log, id) <==> Due(log, id)
  {
    if log != [] {
      var front, last := log[..|log| - 1], |log| - 1;
      DueMeans(front, id);
      RegisteredInLog(front, id);
      FlagMeans(front);
      FlagUpKept(log, last);
      DueOlder(log, id);
      DueNewer(log, id);
    }
  }

  lemma DueOlder(log: seq<Event>, id: nat)
    requires log != []
    requires var front := log[..|log| - 1];
      && (DueYet(front, id) ==> Due(front, id))
      && (RegisteredYet(front, id) ==> IsRegistered(front, id, |front|))
      && (FlagYet(front) ==> FlagUp(log, |front|))
    ensures DueYet(log, id) ==> Due(log, id)
  {
    var front, last := log[..|log| - 1], |log| - 1;
    if DueYet(front, id) {
      var m :| DueAt(front, id, m);
      FlagUpKept(log, m);
      CarriedSinceKept(log, m);
      assert DueAt(log, id, m);
    } else if log[last] == StopCarried && RegisteredYet(front, id) {
      var m :| 0 <= m < |front| && front[m] == Registered(id);
      CarriedSinceKept(log, m);
      assert DueAt(log, id, m);
    } else if DueYet(log, id) {
      assert DueAt(log, id, last);
    }
  }

  lemma DueNewer(log: seq<Event>, id: nat)
    requires log != []
    requires var front := log[..|log| - 1];
      && (Due(front, id) ==> DueYet(front, id))
      && (IsRegistered(front, id, |front|) ==> RegisteredYet(front, id))
      && (FlagUp(log, |front|) ==> FlagYet(front))
    ensures Due(log, id) ==> DueYet(log, id)
  {
    var front, last := log[..|log| - 1], |log| - 1;
    forall m | DueAt(log, id, m) ensures DueYet(log, id) {
      if m < last {
        assert front[m] == Registered(id);
        FlagUpKept(log, m);
        CarriedSinceKept(log, m);
        if FlagUp(front, m) || CarriedSince(front, m) {
          assert DueAt(front, id, m);
        }
      } else {
        assert !CarriedSince(log, last);
      }
    }
  }

  // --- What each step logs -------------------------------------------------

  function ReadLogs(s: State, line: Line): Option<Event> {
    if !s.reader.Idle? then None
    else match line
      case Start(_) => Some(StartRead(s.next))
      case Stop => Some(StopRead)
      case Shutdown => Some(StopRead)
      case Unusable => None
      case EndOfInput => None
  }

  function ReaderLogs(s: State): Option<Event> {
    match s.reader
    case GotStart(_, _) => Some(FlagCleared)
    case GotStop(_) => Some(FlagSet)
    case Sending(_) => Some(StopCarried)
    case LostInput => Some(SlotRead)
    case _ => None
  }

  function MainLogs(s: State): Option<Event> {
    if s.main.Spawned? then Some(Registered(s.main.id)) else None
  }

  function Logs(s: State, step: Step): Option<Event> {
    match step
    case Input(line) => if s.gone then None else ReadLogs(s, line)
    case ReaderGoes => if s.gone then None else ReaderLogs(s)
    case MainGoes(_) => if s.gone then None else MainLogs(s)
    case ChildGoes(_, _) => None
  }

  function Logged(log: seq<Event>, event: Option<Event>): seq<Event> {
    if event.Some? then log + [event.value] else log
  }

  ghost function AfterMaybe(d: Duty, id: nat, event: Option<Event>): Duty {
    if event.Some? then After(d, id, event.value) else d
  }

  lemma MainLogged(s: State, outcome: Outcome)
    requires Known(s)
    ensures MainStep(s, outcome).log == Logged(s.log, MainLogs(s))
  {
  }

  lemma ReaderLogged(s: State)
    requires Known(s)
    ensures ReaderStep(s).log == Logged(s.log, ReaderLogs(s))
  {
  }

  lemma StepLogged(s: State, step: Step)
    requires Known(s)
    ensures Next(s, step).log == Logged(s.log, Logs(s, step))
  {
    match step
    case Input(line) =>
    case ReaderGoes => ReaderLogged(s);
    case MainGoes(outcome) => MainLogged(s, outcome);
    case ChildGoes(_, _) =>
  }

  lemma StopsLogged(log: seq<Event>, event: Event, id: nat, longer: seq<Event>)
    requires longer == log + [event]
    ensures var d := After(DutyOf(log, id), id, event);
      AskedYet(longer, id) == d.asked && OwedYet(longer, id) == d.owed && CarriedYet(longer, id) == d.carried
  {
    assert Front(longer) == log && Last(longer) == event;
  }

  lemma FlagLogged(log: seq<Event>, event: Event, id: nat, longer: seq<Event>)
    requires longer == log + [event]
    ensures var d := After(DutyOf(log, id), id, event);
      InTimeYet(longer, id) == d.inTime && StopLast(longer) == d.lastIsStop
      && FlagYet(longer) == d.flag && DueYet(longer, id) == d.due
  {
    assert Front(longer) == log && Last(longer) == event;
  }

  lemma LoggedDuty(log: seq<Event>, event: Event, id: nat, longer: seq<Event>)
    requires longer == log + [event]
    ensures DutyOf(longer, id) == After(DutyOf(log, id), id, event)
  {
    StopsLogged(log, event, id, longer);
    FlagLogged(log, event, id, longer);
    assert StartedYet(longer, id) == After(DutyOf(log, id), id, event).started;
  }

  lemma LogGrows(s: State, step: Step, id: nat)
    requires Known(s)
    ensures DutyOf(Next(s, step).log, id) == AfterMaybe(DutyOf(s.log, id), id, Logs(s, step))
  {
    StepLogged(s, step);
    if Logs(s, step).Some? {
      LoggedDuty(s.log, Logs(s, step).value, id, Next(s, step).log);
    }
  }

  // --- Where a start is ----------------------------------------------------

  predicate InReader(s: State, id: nat) {
    (s.reader.GotStart? || s.reader.Cleared?) && s.reader.id == id
  }

  /** The main loop took the start from the queue and has not spawned its child. */
  predicate InMain(s: State, id: nat) {
    (s.main.Got? || s.main.Checked? || s.main.Refusing? || s.main.Opening? || s.main.Announcing? || s.main.Spawning?)
    && s.main.id == id
  }

  function InQueue(queue: seq<Queued>, id: nat): nat {
    if queue == [] then 0
    else (if queue[0].Begin? && queue[0].id == id then 1 else 0) + InQueue(queue[1..], id)
  }

  function One(b: bool): nat { if b then 1 else 0 }

  function Places(s: State, id: nat): nat {
    One(InReader(s, id)) + InQueue(s.queue, id) + One(InMain(s, id)) + One(id in s.children) + One(id in s.refused)
  }

  lemma {:induction false} InQueueAppend(queue: seq<Queued>, last: Queued, id: nat)
    ensures InQueue(queue + [last], id) == InQueue(queue, id) + One(last.Begin? && last.id == id)
  {
    if queue == [] {
      assert (queue + [last])[1..] == [];
    } else {
      InQueueAppend(queue[1..], last, id);
      assert (queue + [last])[1..] == queue[1..] + [last];
    }
  }

  ghost predicate Placed(s: State, id: nat) {
    Places(s, id) == if id < s.next then 1 else 0
  }

  // --- What every step keeps, for one start --------------------------------

  ghost predicate IsAlive(s: State, id: nat) {
    id in s.children && s.children[id].Alive?
  }

  /** The reader has read a stop and not yet reached for the child slot. */
  predicate StopInHand(s: State) {
    s.reader.GotStop? || s.reader.Flagged? || s.reader.Sending?
  }

  ghost predicate DutySound(duty: Duty) {
    && (duty.owed ==> duty.asked)
    && (duty.asked ==> duty.started)
    && (duty.owed && !duty.registered ==> duty.lastIsStop)
    && (duty.carried ==> duty.owed)
    && (duty.carried && duty.registered ==> duty.due)
    && (duty.due ==> duty.registered)
    && (duty.inTime ==> duty.registered)
  }

  ghost predicate FlagTells(s: State, duty: Duty, id: nat) {
    && (duty.started <==> id < s.next)
    && (duty.flag <==> s.stopRequested)
    && (duty.lastIsStop ==> !s.reader.GotStart? && (s.stopRequested || s.reader.GotStop?))
    && (StopInHand(s) && duty.started ==> duty.asked)
    && (s.stopRequested && duty.started && !(s.reader.GotStart? && s.reader.id == id) ==> duty.asked)
    && (id in s.told ==> duty.asked)
    && (duty.carried && !duty.registered ==> s.stopRequested)
  }

  ghost predicate SlotTells(s: State, duty: Duty, id: nat) {
    && (duty.registered ==> id in s.children)
    && (s.slot == Some(id) ==> duty.registered)
    && (duty.registered && IsAlive(s, id) ==> s.slot == Some(id))
    && (id in s.children && !duty.registered ==> s.main == Spawned(id))
    && (IsAlive(s, id) ==> s.main == Spawned(id) || s.main == Relaying(id))
    && (s.main == Spawned(id) ==> !duty.registered)
  }

  ghost predicate Answered(s: State, duty: Duty, id: nat) {
    && (duty.owed && !duty.carried ==> StopInHand(s))
    && (id in s.told ==> duty.registered)
    && (duty.registered && IsAlive(s, id) ==> (id in s.told <==> duty.due))
    && (s.reader.Terminating? && IsAlive(s, id) ==> (s.reader.child == Some(id) <==> duty.inTime))
    && (duty.inTime && IsAlive(s, id) ==> s.reader.Terminating?)
    && (s.gone ==> s.reader.Finished?)
  }

  ghost predicate Safe(s: State, duty: Duty, id: nat) {
    Placed(s, id) && DutySound(duty) && FlagTells(s, duty, id) && SlotTells(s, duty, id) && Answered(s, duty, id)
  }

  lemma StartReadKeeps(s: State, run: string, duty: Duty, id: nat)
    requires Known(s) && Safe(s, duty, id) && !s.gone && s.reader.Idle?
    ensures Safe(Read(s, Start(run)), After(duty, id, StartRead(s.next)), id)
  {
  }

  lemma StopReadKeeps(s: State, line: Line, duty: Duty, id: nat)
    requires Known(s) && Safe(s, duty, id) && !s.gone && s.reader.Idle? && (line.Stop? || line.Shutdown?)
    ensures Safe(Read(s, line), After(duty, id, StopRead), id)
  {
  }

  lemma ReadKeeps(s: State, line: Line, duty: Duty, id: nat)
    requires Known(s) && Safe(s, duty, id) && !s.gone
    ensures Safe(Read(s, line), AfterMaybe(duty, id, ReadLogs(s, line)), id)
  {
    if s.reader.Idle? {
      if line.Start? {
        StartReadKeeps(s, line.run, duty, id);
      } else if line.Stop? || line.Shutdown? {
        StopReadKeeps(s, line, duty, id);
      }
    }
  }

  lemma FlagKeeps(s: State, duty: Duty, id: nat)
    requires Known(s) && Safe(s, duty, id) && !s.gone && (s.reader.GotStart? || s.reader.GotStop?)
    ensures Safe(ReaderStep(s), AfterMaybe(duty, id, ReaderLogs(s)), id)
  {
  }

  lemma LookKeeps(s: State, duty: Duty, id: nat)
    requires Known(s) && Safe(s, duty, id) && !s.gone && s.reader.LostInput?
    ensures Safe(ReaderStep(s), After(duty, id, SlotRead), id)
  {
  }

  lemma QueueKeeps(s: State, id: nat, run: string, duty: Duty, i: nat)
    requires Known(s) && Safe(s, duty, i) && !s.gone && s.reader == Cleared(id, run)
    ensures Safe(ReaderStep(s), duty, i)
  {
    InQueueAppend(s.queue, Begin(id, run), i);
  }

  lemma AnswerKeeps(s: State, shutdown: bool, duty: Duty, id: nat)
    requires Known(s) && Safe(s, duty, id) && !s.gone && s.reader == Sent(shutdown)
    ensures Safe(ReaderStep(s), duty, id)
  {
    InQueueAppend(s.queue, Quit, id);
  }

  lemma SendKeeps(s: State, shutdown: bool, duty: Duty, id: nat)
    requires Known(s) && Safe(s, duty, id) && !s.gone && s.reader == Sending(shutdown)
    ensures Safe(ReaderStep(s), After(duty, id, StopCarried), id)
  {
  }

  lemma TerminateKeeps(s: State, child: Option<nat>, duty: Duty, id: nat)
    requires Known(s) && Safe(s, duty, id) && !s.gone && s.reader == Terminating(child)
    ensures Safe(ReaderStep(s), duty, id)
  {
  }

  lemma ReaderKeeps(s: State, duty: Duty, id: nat)
    requires Known(s) && Safe(s, duty, id) && !s.gone
    ensures Safe(ReaderStep(s), AfterMaybe(duty, id, ReaderLogs(s)), id)
  {
    match s.reader
    case GotStart(_, _) => FlagKeeps(s, duty, id);
    case Cleared(i, run) => QueueKeeps(s, i, run, duty, id);
    case GotStop(_) => FlagKeeps(s, duty, id);
    case Sending(shutdown) => SendKeeps(s, shutdown, duty, id);
    case Sent(shutdown) => AnswerKeeps(s, shutdown, duty, id);
    case LostInput => LookKeeps(s, duty, id);
    case Terminating(child) => TerminateKeeps(s, child, duty, id);
    case _ =>
  }

  lemma RefuseKeeps(s: State, i: nat, shown: Value, outcome: Outcome, duty: Duty, id: nat)
    requires Known(s) && Safe(s, duty, id) && !s.gone && s.main == Refusing(i, shown)
    ensures Safe(Advance(s, outcome), duty, id)
  {
  }

  lemma ReapKeeps(s: State, i: nat, outcome: Outcome, duty: Duty, id: nat)
    requires Known(s) && Safe(s, duty, id) && !s.gone && s.main == Reaped(i)
    ensures Safe(Advance(s, outcome), duty, id)
  {
  }

  predicate HasChild(main: Main) {
    main.Spawned? || main.Relaying?
  }

  /** Moving on without taking, spawning or leaving a child behind. */
  lemma MoveKeeps(s: State, value: Value, main: Main, duty: Duty, id: nat)
    requires Safe(s, duty, id) && !HasChild(s.main) && !HasChild(main)
    requires InMain(s.(main := main), id) == InMain(s, id)
    ensures Safe(s.(value := value, main := main), duty, id)
  {
  }

  predicate Moves(main: Main) {
    main.Booting? || main.Looping? || main.Got? || main.Opening? || main.Announcing? || main.Emptied?
  }

  lemma AdvanceMoves(s: State, outcome: Outcome)
    requires Moves(s.main)
    ensures var after := Advance(s, outcome);
      after == s.(value := after.value, main := after.main) && !HasChild(after.main)
    ensures forall id :: InMain(Advance(s, outcome), id) == InMain(s, id)
  {
  }

  lemma AdvanceKeeps(s: State, outcome: Outcome, duty: Duty, id: nat)
    requires Known(s) && Safe(s, duty, id) && !s.gone
    ensures Safe(Advance(s, outcome), duty, id)
  {
    if s.main.Refusing? {
      RefuseKeeps(s, s.main.id, s.main.shown, outcome, duty, id);
    } else if s.main.Reaped? {
      ReapKeeps(s, s.main.id, outcome, duty, id);
    } else if Moves(s.main) {
      var after := Advance(s, outcome);
      AdvanceMoves(s, outcome);
      assert InMain(after, id) == InMain(s.(main := after.main), id);
      MoveKeeps(s, after.value, after.main, duty, id);
    }
  }

  lemma TakeNextKeeps(s: State, duty: Duty, id: nat)
    requires Known(s) && Safe(s, duty, id) && !s.gone && s.main.Waiting?
    ensures Safe(TakeNext(s), duty, id)
  {
  }

  lemma CheckKeeps(s: State, i: nat, run: string, seen: Value, duty: Duty, id: nat)
    requires Known(s) && Safe(s, duty, id) && !s.gone && s.main == Checked(i, run, seen)
    ensures Safe(Check(s, i, run, seen), duty, id)
  {
  }

  lemma SpawnKeeps(s: State, i: nat, outcome: Outcome, duty: Duty, id: nat)
    requires Known(s) && Safe(s, duty, id) && Placed(s, i) && !s.gone && s.main == Spawning(i)
    ensures Safe(Spawn(s, i, outcome), duty, id)
  {
  }

  /** The heart of it: filling the slot and consulting the flag are one step. */
  lemma RegisterKeeps(s: State, i: nat, duty: Duty, id: nat)
    requires Known(s) && Safe(s, duty, id) && !s.gone && s.main == Spawned(i)
    ensures Safe(Register(s, i), After(duty, id, Registered(i)), id)
  {
  }

  lemma RelayKeeps(s: State, i: nat, outcome: Outcome, duty: Duty, id: nat)
    requires Known(s) && Safe(s, duty, id) && !s.gone && s.main == Relaying(i)
    ensures Safe(Relay(s, i, outcome), duty, id)
  {
  }

  lemma JudgeKeeps(s: State, i: nat, seen: Value, duty: Duty, id: nat)
    requires Known(s) && Safe(s, duty, id) && !s.gone && s.main == Judging(i, seen)
    ensures Safe(Judge(s, i, seen), duty, id)
  {
  }

  lemma LeaveKeeps(s: State, duty: Duty, id: nat)
    requires Known(s) && Safe(s, duty, id) && !s.gone && s.main.Leaving?
    ensures Safe(Leave(s), duty, id)
  {
  }

  predicate Takes(main: Main) {
    main.Waiting? || main.Checked? || main.Spawning?
  }

  predicate Tends(main: Main) {
    main.Relaying? || main.Judging? || main.Leaving?
  }

  lemma TakesKeeps(s: State, outcome: Outcome, duty: Duty, id: nat)
    requires Known(s) && Safe(s, duty, id) && !s.gone && Takes(s.main)
    requires s.main.Spawning? ==> Placed(s, s.main.id)
    ensures Safe(MainStep(s, outcome), duty, id)
  {
    match s.main
    case Waiting => TakeNextKeeps(s, duty, id);
    case Checked(i, run, seen) => CheckKeeps(s, i, run, seen, duty, id);
    case Spawning(i) => SpawnKeeps(s, i, outcome, duty, id);
  }

  lemma TendsKeeps(s: State, outcome: Outcome, duty: Duty, id: nat)
    requires Known(s) && Safe(s, duty, id) && !s.gone && Tends(s.main)
    ensures Safe(MainStep(s, outcome), duty, id)
  {
    match s.main
    case Relaying(i) => RelayKeeps(s, i, outcome, duty, id);
    case Judging(i, seen) => JudgeKeeps(s, i, seen, duty, id);
    case Leaving => LeaveKeeps(s, duty, id);
  }

  lemma MainKeeps(s: State, outcome: Outcome, duty: Duty, id: nat)
    requires Known(s) && Safe(s, duty, id) && !s.gone
    requires s.main.Spawning? ==> Placed(s, s.main.id)
    ensures Safe(MainStep(s, outcome), AfterMaybe(duty, id, MainLogs(s)), id)
  {
    if Takes(s.main) {
      TakesKeeps(s, outcome, duty, id);
    } else if Tends(s.main) {
      TendsKeeps(s, outcome, duty, id);
    } else if s.main.Spawned? {
      RegisterKeeps(s, s.main.id, duty, id);
    } else {
      AdvanceKeeps(s, outcome, duty, id);
      assert MainStep(s, outcome) == Advance(s, outcome);
    }
  }

  lemma ChildKeeps(s: State, child: nat, code: int, duty: Duty, id: nat)
    requires Known(s) && Safe(s, duty, id)
    ensures Safe(ChildEnds(s, child, code), duty, id)
  {
  }

  lemma StepKeeps(s: State, step: Step, duty: Duty, id: nat)
    requires Known(s) && Safe(s, duty, id)
    requires s.main.Spawning? ==> Placed(s, s.main.id)
    ensures Safe(Next(s, step), AfterMaybe(duty, id, Logs(s, step)), id)
  {
    match step
    case Input(line) => if !s.gone { ReadKeeps(s, line, duty, id); }
    case ReaderGoes => if !s.gone { ReaderKeeps(s, duty, id); }
    case MainGoes(outcome) => if !s.gone { MainKeeps(s, outcome, duty, id); }
    case ChildGoes(child, code) => ChildKeeps(s, child, code, duty, id);
  }

  /** Every step of every interleaving keeps all of it. */
  lemma {:induction false} AlwaysSafe(steps: seq<Step>, id: nat)
    ensures var s := Run(steps); Safe(s, DutyOf(s.log, id), id)
  {
    if steps != [] {
      var front, step := steps[..|steps| - 1], steps[|steps| - 1];
      var s := Run(front);
      AlwaysSafe(front, id);
      if s.main.Spawning? {
        AlwaysSafe(front, s.main.id);
      }
      StepKeeps(s, step, DutyOf(s.log, id), id);
      LogGrows(s, step, id);
    }
  }

  // --- What it comes to ----------------------------------------------------

  /**
   Exactly when a child that lives has been told to stop: the stop flag was up
   at its registration, or a stop has been carried since. So for a registered
   child a stop is lost exactly when the last write of the flag before the registration
   is the clearing by a start, and no stop has been carried after it.
   */
  lemma ToldExactly(steps: seq<Step>, id: nat)
    requires IsAlive(Run(steps), id)
    ensures id in Run(steps).told <==> Due(Run(steps).log, id)
  {
    AlwaysSafe(steps, id);
    DueMeans(Run(steps).log, id);
  }

  /** The child has been dealt with: it never was, it is no more, or it was told. */
  ghost predicate Settled(s: State, id: nat) {
    id !in s.children || s.children[id].Exited? || id in s.told
  }

  /**
   No stop is lost when no start comes between. Whatever the interleaving,
   take a start followed by a stop or shutdown, with no further start read
   before its child was registered. Once such a stop has been carried to the
   child slot, the child never was, is no more or was told, except between the
   spawn and the registration of that very child; and until then the reader
   holds the stop in its hand.
   */
  lemma NoLostStop(steps: seq<Step>, id: nat)
    requires Owed(Run(steps).log, id)
    ensures var s := Run(steps);
      if OwedAndCarried(s.log, id) then Settled(s, id) || s.main == Spawned(id) else StopInHand(s)
  {
    AlwaysSafe(steps, id);
    DutyMeans(Run(steps).log, id);
    CarriedMeans(Run(steps).log, id);
  }

  /** The flag decides at the registration: a living child is told in that very step exactly when it is up. */
  lemma RegistrationTells(steps: seq<Step>, id: nat, outcome: Outcome)
    requires var s := Run(steps); s.main == Spawned(id) && !s.gone
    ensures var s := Run(steps);
      IsAlive(s, id) ==> (id in Next(s, MainGoes(outcome)).told <==> FlagUp(s.log, |s.log|))
    ensures OwedAndCarried(Run(steps).log, id) ==> FlagUp(Run(steps).log, |Run(steps).log|)
  {
    AlwaysSafe(steps, id);
    FlagMeans(Run(steps).log);
    CarriedMeans(Run(steps).log, id);
  }

  /** And the stop leaves the reader's hand for the child, if it is registered and lives. */
  lemma StopReachesChild(steps: seq<Step>, id: nat)
    requires var s := Run(steps); IsRegistered(s.log, id, |s.log|) && s.reader.Sending? && !s.gone
    ensures Settled(Next(Run(steps), ReaderGoes), id)
  {
    AlwaysSafe(steps, id);
    RegisteredInLog(Run(steps).log, id);
  }

  /** And no stop is invented: a child is told only if a stop was read after its start. */
  lemma NoInventedStop(steps: seq<Step>, id: nat)
    requires id in Run(steps).told
    ensures Asked(Run(steps).log, id)
  {
    AlwaysSafe(steps, id);
    DutyMeans(Run(steps).log, id);
  }

  /** Every start read is in exactly one place: with the reader, queued, with the main loop, spawned or refused. */
  lemma EveryStartHasOnePlace(steps: seq<Step>, id: nat)
    ensures Places(Run(steps), id) == if StartRead(id) in Run(steps).log then 1 else 0
  {
    AlwaysSafe(steps, id);
  }

  /** Two sessions never live at once. */
  lemma OneChildAtATime(steps: seq<Step>, a: nat, b: nat)
    requires IsAlive(Run(steps), a) && IsAlive(Run(steps), b)
    ensures a == b
  {
    AlwaysSafe(steps, a);
    AlwaysSafe(steps, b);
  }

  /** No child outlives the main loop, and none registered when the slot was read at the end is left by it. */
  lemma ChildrenEndWithSupervisor(steps: seq<Step>, id: nat)
    requires IsAlive(Run(steps), id)
    ensures !Run(steps).main.Left?
    ensures Run(steps).gone ==> !RegisteredInTime(Run(steps).log, id)
  {
    AlwaysSafe(steps, id);
    InTimeMeans(Run(steps).log, id);
  }

  /**
   Exactly which child the supervisor leaves to itself when its input ends:
   once the reader has read the slot, a child that lives is not terminated by
   what the reader does next exactly when it was not registered then.
   */
  lemma LeftBehindExactly(steps: seq<Step>, id: nat)
    requires var s := Run(steps); s.reader.Terminating? && !s.gone && IsAlive(s, id)
    ensures var s := Run(steps);
      var rest := Next(s, ReaderGoes);
      Known(rest) && Next(rest, ReaderGoes).gone
      && (IsAlive(Next(rest, ReaderGoes), id) <==> !RegisteredInTime(s.log, id))
  {
    AlwaysSafe(steps, id);
    InTimeMeans(Run(steps).log, id);
    TerminatesSlot(Run(steps), id);
  }

  /** The rest of what the reader does at the end leaves exactly the children it did not find in the slot. */
  lemma TerminatesSlot(s: State, id: nat)
    requires Known(s) && s.reader.Terminating? && !s.gone && IsAlive(s, id)
    ensures var rest := Next(s, ReaderGoes);
      Known(rest) && Next(rest, ReaderGoes).gone
      && (IsAlive(Next(rest, ReaderGoes), id) <==> s.reader.child != Some(id))
  {
    StaysKnown(s, ReaderGoes);
    assert Next(s, ReaderGoes).reader == Exiting;
  }

  // --- Why the conditions are there ----------------------------------------

  lemma Extend(steps: seq<Step>, step: Step) returns (more: seq<Step>)
    ensures more == steps + [step]
    ensures Run(more) == Next(Run(steps), step)
  {
    more := steps + [step];
    assert more[..|more| - 1] == steps;
  }

  /** One start is read and queued. */
  lemma StartedRun() returns (steps: seq<Step>)
    ensures Run(steps) == INITIAL.(next := 1, queue := [Begin(0, "a")], log := [StartRead(0), FlagCleared])
  {
    steps := Extend([], Input(Start("a")));
    assert Run(steps) == INITIAL.(next := 1, reader := GotStart(0, "a"), log := [StartRead(0)]);
    steps := Extend(steps, ReaderGoes);
    assert Run(steps) == INITIAL.(next := 1, reader := Cleared(0, "a"), log := [StartRead(0), FlagCleared]);
    steps := Extend(steps, ReaderGoes);
  }

  /** And the main loop waits for it. */
  lemma QueuedRun() returns (steps: seq<Step>)
    ensures Run(steps) == INITIAL.(
      value := Ready, next := 1, queue := [Begin(0, "a")], main := Waiting, log := [StartRead(0), FlagCleared])
  {
    steps := StartedRun();
    steps := Extend(steps, MainGoes(Succeeds));
    steps := Extend(steps, MainGoes(Succeeds));
  }

  lemma TakenRun() returns (steps: seq<Step>)
    ensures Run(steps) == INITIAL.(value := Ready, next := 1, main := Opening(0), log := [StartRead(0), FlagCleared])
  {
    steps := QueuedRun();
    steps := Extend(steps, MainGoes(Succeeds));
    steps := Extend(steps, MainGoes(Succeeds));
    steps := Extend(steps, MainGoes(Succeeds));
  }

  /** The main loop has spawned the start's child, which is not registered yet. */
  lemma SpawnedRun() returns (steps: seq<Step>)
    ensures Run(steps) == INITIAL.(
      value := Starting, children := map[0 := Alive], next := 1, main := Spawned(0), log := [StartRead(0), FlagCleared])
  {
    steps := TakenRun();
    steps := Extend(steps, MainGoes(Succeeds));
    steps := Extend(steps, MainGoes(Succeeds));
    steps := Extend(steps, MainGoes(Succeeds));
  }

  /** A stop is read and its flag set before the registration. */
  lemma FlaggedRun() returns (steps: seq<Step>)
    ensures Run(steps) == INITIAL.(
      value := Starting, stopRequested := true, children := map[0 := Alive], next := 1, main := Spawned(0),
      reader := Flagged(false), log := [StartRead(0), FlagCleared, StopRead, FlagSet])
  {
    steps := SpawnedRun();
    steps := Extend(steps, Input(Stop));
    steps := Extend(steps, ReaderGoes);
  }

  /** And carried to an empty slot. */
  lemma StoppedRun() returns (steps: seq<Step>)
    ensures Run(steps) == INITIAL.(
      value := Stopping, stopRequested := true, children := map[0 := Alive], next := 1, main := Spawned(0),
      log := [StartRead(0), FlagCleared, StopRead, FlagSet, StopCarried])
  {
    steps := FlaggedRun();
    var start := Run(steps);
    steps := Extend(steps, ReaderGoes);
    assert Run(steps) == start.(reader := Sending(false));
    steps := Extend(steps, ReaderGoes);
    assert Run(steps) == start.(reader := Sent(false), log := start.log + [StopCarried]);
    steps := Extend(steps, ReaderGoes);
  }

  /**
   A further start that clears the flag before the registration loses the stop
   before it: the child lives on untold with both threads at rest.
   */
  lemma OvertakenStopIsLost() returns (steps: seq<Step>)
    ensures var s := Run(steps);
      Asked(s.log, 0) && IsAlive(s, 0) && 0 !in s.told && s.reader == Idle && s.main == Relaying(0)
  {
    steps := StoppedRun();
    steps := Extend(steps, Input(Start("b")));
    steps := Extend(steps, ReaderGoes);
    assert Run(steps).reader == Cleared(1, "b") && !Run(steps).stopRequested && Run(steps).told == {};
    steps := Extend(steps, ReaderGoes);
    assert Run(steps).main == Spawned(0) && IsAlive(Run(steps), 0) && Run(steps).told == {};
    steps := Extend(steps, MainGoes(Succeeds));
    assert StopFollows(Run(steps).log, 0, 0, 2) && StopAt(Run(steps).log, 0, 2);
  }

  /**
   But one that is only read does not: the registration finds the flag still
   up. What counts is when the flag is cleared, not when the start is read.
   */
  lemma OvertakingStartMayComeLate() returns (steps: seq<Step>)
    ensures var s := Run(steps);
      StopAt(s.log, 0, 2) && !Owed(s.log, 0) && IsAlive(s, 0) && 0 in s.told
  {
    steps := StoppedRun();
    steps := Extend(steps, Input(Start("b")));
    assert Run(steps).main == Spawned(0) && IsAlive(Run(steps), 0) && Run(steps).stopRequested;
    steps := Extend(steps, MainGoes(Succeeds));
    var log := Run(steps).log;
    assert log == [StartRead(0), FlagCleared, StopRead, FlagSet, StopCarried, StartRead(1), Registered(0)];
    assert StopFollows(log, 0, 0, 2);
    assert !IsRegistered(log, 0, 5) && log[5].StartRead?;
  }

  /**
   A child spawned but not registered when the slot is read at the end is not
   terminated by the supervisor, which is gone before it; the child has the end
   of its own input to go by.
   */
  lemma UnregisteredChildIsLeft() returns (steps: seq<Step>)
    ensures Run(steps).gone && IsAlive(Run(steps), 0)
  {
    steps := SpawnedRun();
    var start := Run(steps);
    steps := Extend(steps, Input(EndOfInput));
    assert Run(steps) == start.(reader := LostInput);
    steps := Extend(steps, ReaderGoes);
    assert Run(steps) == start.(reader := Terminating(None), log := start.log + [SlotRead]);
    var read := Run(steps);
    steps := Extend(steps, ReaderGoes);
    assert Run(steps) == read.(reader := Exiting);
    steps := Extend(steps, ReaderGoes);
  }
}
