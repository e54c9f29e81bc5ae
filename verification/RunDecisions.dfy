/** What each transaction on a run decides, and how soon a run the worker confirms is active. */
module RunDecisions {
  import opened Options
  import opened RunLifecycle
  import opened RunLifecycleProperties

  // --- Reconciliation ------------------------------------------------------

  predicate RunsIt(cv: Cv, id: RunId) { cv.state == CvRunning && cv.run == Some(id) }

  /** Nothing but this run differs. */
  ghost predicate ChangesOnly(before: Db, after: Db, id: RunId) {
    && after == before.(runs := after.runs) && after.runs.Keys == before.runs.Keys
    && forall other :: other in before.runs && other != id ==> after.runs[other] == before.runs[other]
  }

  /**
   A run is active after a reconciliation exactly when the worker confirms its
   start, or when it was active and the worker is neither lost nor ready
   without it. Confirmed, it has started at that moment and nothing else of it
   but the moment of the change is touched.
   */
  lemma ActivatedExactly(db: Db, cv: Cv, now: real, limits: Limits, id: RunId)
    requires AtMostOne(db) && Ongoing(db, id)
    ensures Reconcile(db, cv, now, limits).Done?
    ensures var before, after := db.runs[id], Reconcile(db, cv, now, limits).value;
      && ChangesOnly(db, after, id)
      && (after.runs[id].status.Active? <==>
            || (before.status.Starting? && RunsIt(cv, id))
            || (before.status.Active? && cv.state !in {CvFailed, CvOffline}
                && (cv.state == CvReady ==> cv.run == Some(id))))
      && (before.status.Starting? && RunsIt(cv, id) ==>
            after.runs[id] == before.(status := Active, startedAt := Some(now), changedAt := now))
      && (before.status.Active? && after.runs[id].status.Active? ==> after.runs[id] == before)
  {
    FindMeans(db);
  }

  /** The worker is told to stop exactly when a start has timed out and the worker, not lost, does not run it. */
  lemma WorkerStoppedExactly(id: RunId, run: Run, cv: Cv, now: real, limits: Limits)
    ensures var decision := Decide(id, run, cv, now, limits);
      decision.Some? && decision.value.stopWorker <==>
        && run.status.Starting? && now > run.requestedAt + limits.startTimeout
        && !RunsIt(cv, id) && cv.state !in {CvFailed, CvOffline}
  {
  }

  /** With nobody in progress it changes nothing. */
  lemma NothingToReconcile(db: Db, cv: Cv, now: real, limits: Limits)
    requires forall id :: !Ongoing(db, id)
    ensures Reconcile(db, cv, now, limits) == Done(db)
  {
    FindMeans(db);
  }

  /** After a restart a run in progress is interrupted exactly when the worker does not run it. */
  lemma RecoveredExactly(db: Db, cv: Cv, now: real, id: RunId)
    requires AtMostOne(db) && id in db.runs
    ensures Recover(db, cv, now).Done?
    ensures var before, after := db.runs[id], Recover(db, cv, now).value;
      && after == db.(runs := after.runs) && after.runs.Keys == db.runs.Keys
      && after.runs[id] == if Ongoing(db, id) && !RunsIt(cv, id)
                           then before.(status := Interrupted, endedAt := Some(now), changedAt := now) else before
  {
    FindMeans(db);
  }

  // --- Starting, ending, deleting ------------------------------------------

  /** One to eighty letters, digits, underscores and hyphens. */
  predicate Acceptable(id: RunId) {
    && 0 < |id| <= 80
    && forall k :: 0 <= k < |id| ==>
         'a' <= id[k] <= 'z' || 'A' <= id[k] <= 'Z' || '0' <= id[k] <= '9' || id[k] in {'_', '-'}
  }

  ghost predicate Unused(db: Db, id: RunId) {
    id !in db.runs && id !in db.tombstones && forall k :: k in db.rows ==> db.rows[k].run != id
  }

  /**
   A start is recorded exactly when, once the run in progress has been
   reconciled, nobody is in progress and the id asked for is acceptable, known
   to no run and not tombstoned; without one a generated id serves that nothing
   at all carries. What is recorded is a managed run that starts now.
   */
  lemma StartedExactly(db: Db, requested: RunId, generated: RunId, cv: Cv, now: real, limits: Limits)
    requires AtMostOne(db)
    ensures Reconcile(db, cv, now, limits).Done?
    ensures var settled, started := Reconcile(db, cv, now, limits).value,
                                    StartTransaction(db, requested, generated, cv, now, limits);
      var chosen := if requested == "" then generated else requested;
      && (started.Done? <==>
            && (forall other :: !Ongoing(settled, other))
            && Acceptable(chosen) && chosen !in settled.runs && chosen !in settled.tombstones
            && (requested == "" ==> Unused(settled, generated)))
      && (started.Done? ==>
            var run := Run(Starting, Managed, now, None, None, None, None, now);
            started.value == (settled.(runs := settled.runs[chosen := run]), chosen))
      && (started.Raised? ==>
            started.error ==
              if exists other :: Ongoing(settled, other) then Conflict
              else if requested == "" && !Unused(settled, generated) then Broken
              else if !Acceptable(chosen) then Invalid
              else Conflict)
  {
    FindMeans(db);
    ReconcileBeginsNone(db, cv, now, limits);
    FindMeans(Reconcile(db, cv, now, limits).value);
  }

  /** A stop is recorded exactly for a run in progress while the worker does not run another one. */
  lemma EndedExactly(db: Db, id: RunId, cv: Cv, now: real)
    ensures var ended := EndTransaction(db, id, cv, now);
      && (ended == Done(None) <==> id in db.runs && db.runs[id].status.Ended?)
      && (ended.Done? && ended.value.Some? <==>
            Ongoing(db, id) && !(cv.state == CvRunning && cv.run.Some? && cv.run.value !in {"", id}))
      && (ended.Raised? ==> ended.error == if id in db.runs then Conflict else NotFound)
      && (ended.Done? && ended.value.Some? ==>
            ended.value.value == db.(runs := db.runs[id := db.runs[id].(status := Ending, changedAt := now)]))
  {
  }

  /** A refused start fails the run; a refused stop makes it active while the worker runs anything, else fails it. */
  lemma RefusedExactly(db: Db, id: RunId, cv: Cv, now: real)
    requires id in db.runs
    ensures var run := db.runs[id];
      var failed := db.(runs := db.runs[id := run.(status := Failed, endedAt := Some(now), changedAt := now)]);
      var active := db.(runs := db.runs[id := run.(status := Active, changedAt := now)]);
      && StartCompensation(db, id, now) == failed
      && EndCompensation(db, id, cv, now) == if cv.state == CvRunning then active else failed
  {
  }

  /**
   A run is deleted exactly when its id is typed again, it is there, it is not
   in progress, the worker is not at it, and no external producer still feeds it.
   */
  lemma DeletedExactly(db: Db, id: RunId, confirmation: RunId, cv: Cv, now: real, limits: Limits)
    ensures Delete(db, id, confirmation, cv, now, limits).Done? <==>
      && confirmation == id && id in db.runs && !Ongoing(db, id)
      && !(cv.run == Some(id) && cv.state in {CvStarting, CvRunning, CvStopping})
      && !(db.runs[id].origin.Unmanaged? && db.runs[id].lastIngested.Some?
           && now - db.runs[id].lastIngested.value < limits.externalWindow)
    ensures Delete(db, id, confirmation, cv, now, limits).Raised? ==>
      Delete(db, id, confirmation, cv, now, limits).error ==
        if confirmation != id then Invalid else if id !in db.runs then NotFound else Conflict
  {
  }

  /** A payload that is not accepted is turned away by the policy, or fails to be written. */
  lemma TurnedAwayExactly(db: Db, id: RunId, write: Write, now: real, limits: Limits)
    requires AtMostOne(db)
    ensures Ingest(db, id, write, now, limits) == Raised(Rejected) <==> !Welcome(db, id, now, limits)
    ensures Ingest(db, id, write, now, limits) == Raised(Broken)
       <==> Welcome(db, id, now, limits) && !Fits(db, id, write)
  {
    FindMeans(db);
    FoundRun(db);
    AcceptedExactly(db, id, write, now, limits);
    AdmittedExactly(db, id, now, limits);
  }

  /** An accepted payload marks its run as fed now, since now if it never was before; a new run is an external one. */
  lemma FedExactly(db: Db, id: RunId, write: Write, now: real, limits: Limits)
    requires Ingest(db, id, write, now, limits).Done?
    ensures var after := Ingest(db, id, write, now, limits).value;
      && id in after.runs && after.runs[id].lastIngested == Some(now)
      && (if id in db.runs then
            var first := db.runs[id].firstIngested;
            after.runs[id] == db.runs[id].(lastIngested := Some(now),
                                           firstIngested := if first.Some? then first else Some(now))
          else
            && after.runs[id].status == External && after.runs[id].origin == Unmanaged
            && after.runs[id].endedAt == None && after.runs[id].firstIngested == Some(now)
            && after.runs[id].startedAt == Some(now) && after.runs[id].requestedAt == now
            && after.runs[id].changedAt == now)
  {
    FoundRun(db);
    var admitted := ResolveIngestion(db, id, now, limits).value;
    assert Ingest(db, id, write, now, limits).value.runs == admitted.runs;
  }

  /** Registering an external run that is there only marks it as fed; one that is not begins now. */
  lemma RegisteredExactly(db: Db, id: RunId, now: real)
    ensures var after := RegisterExternal(db, id, now);
      && after == db.(runs := after.runs) && after.runs.Keys == db.runs.Keys + {id}
      && (forall other :: other in db.runs && other != id ==> after.runs[other] == db.runs[other])
      && after.runs[id] ==
           if id in db.runs then
             var first := db.runs[id].firstIngested;
             db.runs[id].(lastIngested := Some(now), firstIngested := if first.Some? then first else Some(now))
           else Run(External, Unmanaged, now, Some(now), None, Some(now), Some(now), now)
  {
  }

  // --- A confirmed run becomes active --------------------------------------

  /** Every report in this step has the worker run the run, and nobody asks it to end or refuses it. */
  predicate Undisturbed(step: Step, id: RunId) {
    match step
    case Reconciles(cv) => RunsIt(cv, id)
    case StartBegins(_, cv, _, _) => RunsIt(cv, id)
    case StartAnswered(accepted) => accepted
    case EndBegins(ended, _) => ended != id
    case EndAnswered(accepted, _) => accepted
    case Recovers(cv) => RunsIt(cv, id)
    case _ => true
  }

  /** Under way: started and, once `confirmed`, active. */
  predicate UnderWay(db: Db, id: RunId, confirmed: bool) {
    id in db.runs && (db.runs[id].status.Active? || (db.runs[id].status.Starting? && !confirmed))
  }

  lemma IngestKeepsStatus(db: Db, written: RunId, write: Write, now: real, limits: Limits, id: RunId)
    requires Ingest(db, written, write, now, limits).Done? && id in db.runs
    ensures var after := Ingest(db, written, write, now, limits).value;
      id in after.runs && after.runs[id].status == db.runs[id].status
  {
    if written == id {
      FedExactly(db, written, write, now, limits);
    } else {
      IngestSparesOthers(db, written, write, now, limits, id);
    }
  }

  lemma StartLeavesOngoing(
    s: System, seen: Cv, cv: Cv, requested: RunId, generated: RunId, now: real, limits: Limits, id: RunId)
    requires AtMostOne(s.db) && UnderWay(s.db, id, false) && RunsIt(cv, id)
    ensures StartBegin(s, seen, cv, requested, generated, now, limits) == s
  {
    ActivatedExactly(s.db, cv, now, limits, id);
    StartedExactly(s.db, requested, generated, cv, now, limits);
    assert Ongoing(Reconcile(s.db, cv, now, limits).value, id);
  }

  lemma UndisturbedStep(s: System, step: Step, now: real, limits: Limits, id: RunId, confirmed: bool)
    requires Exclusive(s) && UnderWay(s.db, id, confirmed) && Undisturbed(step, id)
    ensures UnderWay(Next(s, step, now, limits).db, id, confirmed || step.Reconciles?)
  {
    assert Ongoing(s.db, id);
    match step
    case Reconciles(cv) => ActivatedExactly(s.db, cv, now, limits, id);
    case StartBegins(seen, cv, requested, generated) =>
      StartLeavesOngoing(s, seen, cv, requested, generated, now, limits, id);
    case StartAnswered(_) =>
    case EndBegins(ended, _) =>
    case EndAnswered(_, _) =>
    case Ingests(written, write) =>
      if Ingest(s.db, written, write, now, limits).Done? {
        IngestKeepsStatus(s.db, written, write, now, limits, id);
      }
    case Deletes(deleted, confirmation, cv) => DeletedExactly(s.db, deleted, confirmation, cv, now, limits);
    case Backfills(_) =>
    case Recovers(cv) => RecoveredExactly(s.db, cv, now, id);
    case Crashes =>
  }

  ghost predicate AllUndisturbed(trace: seq<Timed>, id: RunId) {
    forall k :: 0 <= k < |trace| ==> Undisturbed(trace[k].step, id)
  }

  ghost predicate Reconciled(trace: seq<Timed>) { exists k :: 0 <= k < |trace| && trace[k].step.Reconciles? }

  lemma {:induction false} ConfirmedIsActive(start: System, limits: Limits, trace: seq<Timed>, id: RunId)
    requires Exclusive(start) && UnderWay(start.db, id, false) && AllUndisturbed(trace, id)
    ensures UnderWay(After(start, limits, trace).db, id, Reconciled(trace))
  {
    if trace != [] {
      var front, last := trace[..|trace| - 1], trace[|trace| - 1];
      ConfirmedIsActive(start, limits, front, id);
      AtMostOneInProgress(start, limits, front);
      UndisturbedStep(After(start, limits, front), last.step, last.now, limits, id, Reconciled(front));
      if Reconciled(trace) && !last.step.Reconciles? {
        var k :| 0 <= k < |trace| && trace[k].step.Reconciles?;
        assert front[k].step.Reconciles?;
      }
    }
  }

  /**
   With a reconciliation in every window of a given length, a run that is
   starting at the beginning of such a window and that the worker reports
   running throughout it is active at its end, unless it has been asked to end
   or the worker has refused it.
   */
  lemma ConfirmedInTime(start: System, limits: Limits, trace: seq<Timed>, id: RunId, interval: real)
    requires Exclusive(start) && Waits(start.db, id, ToStart) && AllUndisturbed(trace, id)
    requires trace != [] && ReconciledEvery(trace, interval)
    requires trace[0].now + interval <= trace[|trace| - 1].now
    ensures id in After(start, limits, trace).db.runs && After(start, limits, trace).db.runs[id].status.Active?
  {
    assert ReconciledAfter(trace, trace[0].now, interval);
    ConfirmedIsActive(start, limits, trace, id);
  }
}
