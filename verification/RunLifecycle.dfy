/**
 Runs, their rows and their tombstones, and what each transaction does to
 them. A transaction either commits a new database or raises and leaves the
 old one. What the CV worker reports is a parameter of every transaction.
 */
module RunLifecycle {
  import opened Options

  /** Already trimmed. */
  type RunId = string

  datatype Status = Starting | Active | Ending | Ended | Failed | Interrupted | External

  datatype Origin = Managed | Legacy | Unmanaged

  datatype Run = Run(
    status: Status,
    origin: Origin,
    requestedAt: real,
    startedAt: Option<real>,
    endedAt: Option<real>,
    firstIngested: Option<real>,
    lastIngested: Option<real>,
    changedAt: real)

  datatype Table = Metric | Alert | Observation | Evacuee

  datatype Row = Row(table: Table, run: RunId)

  /** A gallery view belongs to a run only through the evacuee row it points at. */
  datatype Db = Db(runs: map<RunId, Run>, tombstones: set<RunId>, rows: map<nat, Row>, views: map<nat, nat>)

  datatype CvState = CvOffline | CvLoading | CvReady | CvStarting | CvRunning | CvStopping | CvFailed

  /** What the worker reports at the moment a transaction asks. */
  datatype Cv = Cv(state: CvState, run: Option<RunId>, ready: bool)

  datatype Limits = Limits(startTimeout: real, stopTimeout: real, externalWindow: real, allowUnmanaged: bool)

  datatype Error = Conflict | NotFound | Invalid | Rejected | Broken

  datatype Result<T> = Done(value: T) | Raised(error: Error)

  // --- Look-ups ------------------------------------------------------------

  predicate InProgress(status: Status) {
    status.Starting? || status.Active? || status.Ending?
  }

  function RunsInProgress(db: Db): set<RunId> {
    set id | id in db.runs && InProgress(db.runs[id].status)
  }

  datatype Lookup = Nobody | Only(id: RunId) | Many

  lemma SoleMember(ids: set<RunId>, a: RunId, b: RunId)
    requires |ids| == 1 && a in ids && b in ids
    ensures a == b
  {
    var rest := ids - {a};
    assert ids == rest + {a};
  }

  /** More than one row makes the query itself fail. */
  function FindInProgress(db: Db): Lookup {
    var ids := RunsInProgress(db);
    if ids == {} then Nobody
    else if |ids| == 1 then
      assert forall a, b :: a in ids && b in ids ==> a == b by {
        forall a, b | a in ids && b in ids ensures a == b { SoleMember(ids, a, b); }
      }
      var id :| id in ids;
      Only(id)
    else Many
  }

  predicate RecentlyActive(run: Run, now: real, limits: Limits) {
    run.origin.Unmanaged? && run.lastIngested.Some? && run.lastIngested.value >= now - limits.externalWindow
  }

  predicate ValidChar(c: char) {
    'A' <= c <= 'Z' || 'a' <= c <= 'z' || '0' <= c <= '9' || c == '_' || c == '-'
  }

  predicate ValidRunId(id: RunId) {
    1 <= |id| <= 80 && forall k :: 0 <= k < |id| ==> ValidChar(id[k])
  }

  predicate Known(db: Db, id: RunId) {
    id in db.runs || id in db.tombstones || exists k :: k in db.rows && db.rows[k].run == id
  }

  // --- Single changes ------------------------------------------------------

  function WithStatus(run: Run, status: Status, now: real, startedAt: Option<real>, endedAt: Option<real>): Run {
    run.(status := status, changedAt := now,
         startedAt := if startedAt.Some? then startedAt else run.startedAt,
         endedAt := if endedAt.Some? then endedAt else run.endedAt)
  }

  function SetStatus(
    db: Db, id: RunId, status: Status, now: real, startedAt: Option<real>, endedAt: Option<real>): Db
    requires id in db.runs
  {
    db.(runs := db.runs[id := WithStatus(db.runs[id], status, now, startedAt, endedAt)])
  }

  function TouchIngestion(db: Db, id: RunId, now: real): Db
    requires id in db.runs
  {
    var run := db.runs[id];
    var first := if run.firstIngested.None? then Some(now) else run.firstIngested;
    db.(runs := db.runs[id := run.(firstIngested := first, lastIngested := Some(now))])
  }

  function NewManagedRun(now: real): Run {
    Run(Starting, Managed, now, None, None, None, None, now)
  }

  function NewExternalRun(now: real): Run {
    Run(External, Unmanaged, now, Some(now), None, Some(now), Some(now), now)
  }

  function RegisterExternal(db: Db, id: RunId, now: real): Db {
    if id in db.runs then TouchIngestion(db, id, now) else db.(runs := db.runs[id := NewExternalRun(now)])
  }

  // --- Reconciliation ------------------------------------------------------

  datatype Decision = Decision(status: Status, started: bool, ended: bool, stopWorker: bool)

  predicate Down(state: CvState) { state.CvFailed? || state.CvOffline? }

  function Decide(id: RunId, run: Run, cv: Cv, now: real, limits: Limits): Option<Decision> {
    var matches := cv.run == Some(id);
    match run.status
    case Starting =>
      if cv.state.CvRunning? && matches then Some(Decision(Active, true, false, false))
      else if Down(cv.state) then Some(Decision(Failed, false, true, false))
      else if now - run.requestedAt > limits.startTimeout then Some(Decision(Failed, false, true, true))
      else None
    case Active =>
      if Down(cv.state) then Some(Decision(Interrupted, false, true, false))
      else if cv.state.CvReady? && !matches then Some(Decision(Interrupted, false, true, false))
      else None
    case Ending =>
      if cv.state.CvReady? then Some(Decision(Ended, false, true, false))
      else if Down(cv.state) then Some(Decision(Interrupted, false, true, false))
      else if now - run.changedAt > limits.stopTimeout then Some(Decision(Interrupted, false, true, false))
      else None
    case _ => None
  }

  function Stamp(wanted: bool, now: real): Option<real> { if wanted then Some(now) else None }

  function Resolve(db: Db, id: RunId, cv: Cv, now: real, limits: Limits): Db
    requires id in db.runs
  {
    match Decide(id, db.runs[id], cv, now, limits)
    case None => db
    case Some(d) => SetStatus(db, id, d.status, now, Stamp(d.started, now), Stamp(d.ended, now))
  }

  lemma FoundRun(db: Db)
    ensures FindInProgress(db).Only? ==> FindInProgress(db).id in db.runs
                                         && InProgress(db.runs[FindInProgress(db).id].status)
  {
  }

  function Reconcile(db: Db, cv: Cv, now: real, limits: Limits): Result<Db> {
    FoundRun(db);
    match FindInProgress(db)
    case Nobody => Done(db)
    case Only(id) => Done(Resolve(db, id, cv, now, limits))
    case Many => Raised(Broken)
  }

  function Recover(db: Db, cv: Cv, now: real): Result<Db> {
    FoundRun(db);
    match FindInProgress(db)
    case Nobody => Done(db)
    case Only(id) =>
      if cv.state.CvRunning? && cv.run == Some(id) then Done(db)
      else Done(SetStatus(db, id, Interrupted, now, None, Some(now)))
    case Many => Raised(Broken)
  }

  // --- Starting and ending a run -------------------------------------------

  /** The transaction that records a start, before the worker is asked; it yields the run's id. */
  function StartTransaction(
    db: Db, requested: RunId, generated: RunId, cv: Cv, now: real, limits: Limits): Result<(Db, RunId)>
  {
    match Reconcile(db, cv, now, limits)
    case Raised(error) => Raised(error)
    case Done(settled) =>
      if FindInProgress(settled).Many? then Raised(Broken)
      else if FindInProgress(settled).Only? then Raised(Conflict)
      else if requested == "" && Known(settled, generated) then Raised(Broken)
      else
        var chosen := if requested == "" then generated else requested;
        if !ValidRunId(chosen) then Raised(Invalid)
        else if chosen in settled.tombstones || chosen in settled.runs then Raised(Conflict)
        else Done((settled.(runs := settled.runs[chosen := NewManagedRun(now)]), chosen))
  }

  /** What follows when the worker refuses the start. */
  function StartCompensation(db: Db, id: RunId, now: real): Db {
    if id in db.runs then SetStatus(db, id, Failed, now, None, Some(now)) else db
  }

  /** `Done(None)` is the run that had already ended. */
  function EndTransaction(db: Db, id: RunId, cv: Cv, now: real): Result<Option<Db>> {
    if id !in db.runs then Raised(NotFound)
    else
      var status := db.runs[id].status;
      if status.Ended? then Done(None)
      else if !InProgress(status) then Raised(Conflict)
      else if cv.run.Some? && cv.run.value != "" && cv.run != Some(id) && cv.state.CvRunning? then Raised(Conflict)
      else Done(Some(SetStatus(db, id, Ending, now, None, None)))
  }

  /** What follows when the worker refuses the stop; only the worker's state is consulted. */
  function EndCompensation(db: Db, id: RunId, cv: Cv, now: real): Db {
    if id !in db.runs then db
    else if cv.state.CvRunning? then SetStatus(db, id, Active, now, None, None)
    else SetStatus(db, id, Failed, now, None, Some(now))
  }

  // --- Ingestion -----------------------------------------------------------

  /** Whether a payload for this run may be written, with the run's data interval brought up to date. */
  function ResolveIngestion(db: Db, id: RunId, now: real, limits: Limits): Result<Db> {
    FoundRun(db);
    if id == "" then Raised(Rejected)
    else if id in db.tombstones then Raised(Rejected)
    else
      match FindInProgress(db)
      case Many => Raised(Broken)
      case Only(current) => if current != id then Raised(Rejected) else Done(TouchIngestion(db, id, now))
      case Nobody =>
        if id in db.runs then Done(TouchIngestion(db, id, now))
        else if !limits.allowUnmanaged then Raised(Rejected)
        else if exists other :: other in db.runs && other != id && RecentlyActive(db.runs[other], now, limits)
        then Raised(Rejected)
        else Done(RegisterExternal(db, id, now))
  }

  /** What a guarded writer adds: nothing, one row, or one gallery view under an evacuee of the run. */
  datatype Write = NoRow | OneRow(key: nat, table: Table) | OneView(key: nat, evacuee: nat)

  predicate MayHold(db: Db, key: nat, row: Row) {
    key !in db.rows || db.rows[key] == row
  }

  function Written(db: Db, id: RunId, write: Write): Result<Db> {
    match write
    case NoRow => Done(db)
    case OneRow(key, table) =>
      if MayHold(db, key, Row(table, id)) then Done(db.(rows := db.rows[key := Row(table, id)])) else Raised(Broken)
    case OneView(key, evacuee) =>
      if MayHold(db, evacuee, Row(Evacuee, id)) && (key in db.views ==> db.views[key] == evacuee)
      then Done(db.(rows := db.rows[evacuee := Row(Evacuee, id)], views := db.views[key := evacuee]))
      else Raised(Broken)
  }

  function Ingest(db: Db, id: RunId, write: Write, now: real, limits: Limits): Result<Db> {
    match ResolveIngestion(db, id, now, limits)
    case Raised(error) => Raised(error)
    case Done(admitted) => Written(admitted, id, write)
  }

  // --- Backfill ------------------------------------------------------------

  function Discovered(db: Db): set<RunId> {
    set k | k in db.rows && db.rows[k].run != "" :: db.rows[k].run
  }

  function Missing(db: Db): set<RunId> {
    Discovered(db) - db.runs.Keys - db.tombstones
  }

  function LegacyRun(span: (real, real), now: real): Run {
    Run(Ended, Legacy, span.0, Some(span.0), Some(span.1), Some(span.0), Some(span.1), now)
  }

  function Imported(
    runs: map<RunId, Run>, ids: set<RunId>, spans: RunId -> (real, real), now: real): map<RunId, Run>
  {
    runs + map id | id in ids :: LegacyRun(spans(id), now)
  }

  /** `spans` gives the interval that the rows of each run cover. */
  function Backfill(db: Db, spans: RunId -> (real, real), now: real): Db {
    db.(runs := Imported(db.runs, Missing(db), spans, now))
  }

  // --- Deletion ------------------------------------------------------------

  predicate Owns(db: Db, id: RunId, view: nat)
    requires view in db.views
  {
    db.views[view] in db.rows && db.rows[db.views[view]] == Row(Evacuee, id)
  }

  /** Views first, while the evacuees they belong to can still be found. */
  function DeleteRows(db: Db, id: RunId): Db {
    db.(views := map v | v in db.views && !Owns(db, id, v) :: db.views[v],
        rows := map k | k in db.rows && db.rows[k].run != id :: db.rows[k])
  }

  predicate Busy(cv: Cv, id: RunId) {
    cv.run == Some(id) && (cv.state.CvStarting? || cv.state.CvRunning? || cv.state.CvStopping?)
  }

  function Delete(db: Db, id: RunId, confirmation: RunId, cv: Cv, now: real, limits: Limits): Result<Db> {
    if confirmation != id then Raised(Invalid)
    else if id !in db.runs then Raised(NotFound)
    else
      var run := db.runs[id];
      if InProgress(run.status) then Raised(Conflict)
      else if Busy(cv, id) then Raised(Conflict)
      else if run.origin.Unmanaged? && run.lastIngested.Some?
              && now - run.lastIngested.value < limits.externalWindow
      then Raised(Conflict)
      else
        var emptied := DeleteRows(db, id);
        Done(emptied.(runs := emptied.runs - {id}, tombstones := emptied.tombstones + {id}))
  }

  // --- Interleavings -------------------------------------------------------

  /** The lifecycle lock, with the call to the worker its holder is waiting for. */
  datatype Lock = Free | AwaitingStart(id: RunId) | AwaitingStop(id: RunId)

  datatype System = System(db: Db, lock: Lock)

  datatype Step =
    | Reconciles(cv: Cv)
    | StartBegins(seen: Cv, cv: Cv, requested: RunId, generated: RunId)
    | StartAnswered(accepted: bool)
    | EndBegins(id: RunId, cv: Cv)
    | EndAnswered(accepted: bool, cv: Cv)
    | Ingests(id: RunId, write: Write)
    | Deletes(id: RunId, confirmation: RunId, cv: Cv)
    | Backfills(spans: RunId -> (real, real))
    | Recovers(cv: Cv)
    | Crashes

  /** A raised transaction is rolled back. */
  function Commit(s: System, result: Result<Db>): System {
    if result.Done? then s.(db := result.value) else s
  }

  function StartBegin(s: System, seen: Cv, cv: Cv, requested: RunId, generated: RunId, now: real, limits: Limits): System {
    if !s.lock.Free? || !seen.ready || !seen.state.CvReady? then s
    else match StartTransaction(s.db, requested, generated, cv, now, limits)
      case Raised(_) => s
      case Done((db, id)) => System(db, AwaitingStart(id))
  }

  function EndBegin(s: System, id: RunId, cv: Cv, now: real): System {
    if !s.lock.Free? then s
    else match EndTransaction(s.db, id, cv, now)
      case Raised(_) => s
      case Done(None) => s
      case Done(Some(db)) => System(db, AwaitingStop(id))
  }

  function StartAnswer(s: System, accepted: bool, now: real): System {
    if !s.lock.AwaitingStart? then s
    else System(if accepted then s.db else StartCompensation(s.db, s.lock.id, now), Free)
  }

  function EndAnswer(s: System, accepted: bool, cv: Cv, now: real): System {
    if !s.lock.AwaitingStop? then s
    else System(if accepted then s.db else EndCompensation(s.db, s.lock.id, cv, now), Free)
  }

  function Next(s: System, step: Step, now: real, limits: Limits): System {
    match step
    case Reconciles(cv) => Commit(s, Reconcile(s.db, cv, now, limits))
    case StartBegins(seen, cv, requested, generated) => StartBegin(s, seen, cv, requested, generated, now, limits)
    case StartAnswered(accepted) => StartAnswer(s, accepted, now)
    case EndBegins(id, cv) => EndBegin(s, id, cv, now)
    case EndAnswered(accepted, cv) => EndAnswer(s, accepted, cv, now)
    case Ingests(id, write) => Commit(s, Ingest(s.db, id, write, now, limits))
    case Deletes(id, confirmation, cv) => Commit(s, Delete(s.db, id, confirmation, cv, now, limits))
    case Backfills(spans) => s.(db := Backfill(s.db, spans, now))
    case Recovers(cv) => Commit(s, Recover(s.db, cv, now))
    case Crashes => s.(lock := Free)
  }

  datatype Timed = Timed(step: Step, now: real)

  const EMPTY := System(Db(map[], {}, map[], map[]), Free)

  /** The system after any steps, starting with any database. */
  ghost function After(start: System, limits: Limits, trace: seq<Timed>): System {
    if trace == [] then start
    else
      var last := trace[|trace| - 1];
      Next(After(start, limits, trace[..|trace| - 1]), last.step, last.now, limits)
  }
}
