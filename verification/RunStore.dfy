/**
 The run tables as the object the transactions write to. A transaction works
 on the fields in place and puts them back when it raises.
 */
module RunStore {
  import opened Options
  import opened RunLifecycle

  lemma ImportNone(runs: map<RunId, Run>, ids: set<RunId>, spans: RunId -> (real, real), now: real)
    ensures Imported(runs, ids - ids, spans, now) == runs
    ensures Imported(runs, ids - {}, spans, now) == Imported(runs, ids, spans, now)
  {
    assert ids - {} == ids;
  }

  lemma ImportOneMore(
    runs: map<RunId, Run>, ids: set<RunId>, todo: set<RunId>, id: RunId, spans: RunId -> (real, real), now: real)
    requires id in todo && todo <= ids
    ensures Imported(runs, ids - (todo - {id}), spans, now)
         == Imported(runs, ids - todo, spans, now)[id := LegacyRun(spans(id), now)]
  {
  }

  class Store {
    var runs: map<RunId, Run>
    var tombstones: set<RunId>
    var rows: map<nat, Row>
    var views: map<nat, nat>

    function Contents(): Db
      reads this
    {
      Db(runs, tombstones, rows, views)
    }

    constructor (rows: map<nat, Row>, views: map<nat, nat>)
      ensures Contents() == Db(map[], {}, rows, views)
    {
      this.runs, this.tombstones, this.rows, this.views := map[], {}, rows, views;
    }

    method Rollback(saved: Db)
      modifies this
      ensures Contents() == saved
    {
      runs, tombstones, rows, views := saved.runs, saved.tombstones, saved.rows, saved.views;
    }

    method CreateRun(id: RunId, run: Run)
      modifies this`runs
      ensures runs == old(runs)[id := run]
    {
      runs := runs[id := run];
    }

    method ChangeStatus(id: RunId, status: Status, now: real, startedAt: Option<real>, endedAt: Option<real>)
      requires id in runs
      modifies this`runs
      ensures Contents() == SetStatus(old(Contents()), id, status, now, startedAt, endedAt)
    {
      var run := runs[id].(status := status, changedAt := now);
      if startedAt.Some? {
        run := run.(startedAt := startedAt);
      }
      if endedAt.Some? {
        run := run.(endedAt := endedAt);
      }
      runs := runs[id := run];
    }

    method Touch(id: RunId, now: real)
      requires id in runs
      modifies this`runs
      ensures Contents() == TouchIngestion(old(Contents()), id, now)
    {
      var run := runs[id];
      if run.firstIngested.None? {
        run := run.(firstIngested := Some(now));
      }
      runs := runs[id := run.(lastIngested := Some(now))];
    }

    method RegisterExternalRun(id: RunId, now: real)
      modifies this`runs
      ensures Contents() == RegisterExternal(old(Contents()), id, now)
    {
      if id !in runs {
        CreateRun(id, NewExternalRun(now));
      } else {
        Touch(id, now);
      }
    }

    /** One created run after the other, in any order. */
    method ImportAll(ids: set<RunId>, spans: RunId -> (real, real), now: real)
      modifies this`runs
      ensures runs == Imported(old(runs), ids, spans, now)
    {
      ghost var before := runs;
      var todo := ids;
      ImportNone(before, ids, spans, now);
      while todo != {}
        invariant todo <= ids
        invariant runs == Imported(before, ids - todo, spans, now)
        decreases |todo|
      {
        var id :| id in todo;
        ImportOneMore(before, ids, todo, id, spans, now);
        CreateRun(id, LegacyRun(spans(id), now));
        todo := todo - {id};
      }
    }

    method BackfillLegacyRuns(spans: RunId -> (real, real), now: real) returns (imported: set<RunId>)
      modifies this`runs
      ensures imported == Missing(old(Contents()))
      ensures Contents() == Backfill(old(Contents()), spans, now)
    {
      imported := Missing(Contents());
      ImportAll(imported, spans, now);
    }

    /** Returns whether the worker has to be asked to stop. */
    method ReconcileRun(cv: Cv, now: real, limits: Limits) returns (outcome: Result<bool>)
      modifies this`runs
      ensures outcome.Done? == Reconcile(old(Contents()), cv, now, limits).Done?
      ensures outcome.Done? ==> Done(Contents()) == Reconcile(old(Contents()), cv, now, limits)
      ensures outcome.Raised? ==> Contents() == old(Contents())
    {
      FoundRun(Contents());
      match FindInProgress(Contents())
      case Nobody => outcome := Done(false);
      case Many => outcome := Raised(Broken);
      case Only(id) =>
        match Decide(id, runs[id], cv, now, limits)
        case None => outcome := Done(false);
        case Some(d) =>
          ChangeStatus(id, d.status, now, Stamp(d.started, now), Stamp(d.ended, now));
          outcome := Done(d.stopWorker);
    }

    method RecoverAfterRestart(cv: Cv, now: real)
      modifies this`runs
      ensures Contents()
           == match Recover(old(Contents()), cv, now) case Done(db) => db case Raised(_) => old(Contents())
    {
      FoundRun(Contents());
      match FindInProgress(Contents())
      case Nobody =>
      case Many =>
      case Only(id) =>
        if !(cv.state.CvRunning? && cv.run == Some(id)) {
          ChangeStatus(id, Interrupted, now, None, Some(now));
        }
    }

    /** The transaction of a start: reconcile, refuse or record, and undo everything when it refuses. */
    method StartRun(requested: RunId, generated: RunId, cv: Cv, now: real, limits: Limits)
      returns (outcome: Result<RunId>)
      modifies this
      ensures match StartTransaction(old(Contents()), requested, generated, cv, now, limits)
              case Raised(error) => outcome == Raised(error) && Contents() == old(Contents())
              case Done((db, id)) => outcome == Done(id) && Contents() == db
    {
      var saved := Contents();
      outcome := RecordStart(requested, generated, cv, now, limits);
      if outcome.Raised? {
        Rollback(saved);
      }
    }

    method RecordStart(requested: RunId, generated: RunId, cv: Cv, now: real, limits: Limits)
      returns (outcome: Result<RunId>)
      modifies this
      ensures match StartTransaction(old(Contents()), requested, generated, cv, now, limits)
              case Raised(error) => outcome == Raised(error)
              case Done((db, id)) => outcome == Done(id) && Contents() == db
    {
      var reconciled := ReconcileRun(cv, now, limits);
      if reconciled.Raised? {
        return Raised(Broken);
      }
      match FindInProgress(Contents())
      case Many => return Raised(Broken);
      case Only(_) => return Raised(Conflict);
      case Nobody =>
        if requested == "" && Known(Contents(), generated) {
          return Raised(Broken);
        }
        var chosen := if requested == "" then generated else requested;
        if !ValidRunId(chosen) {
          return Raised(Invalid);
        }
        if chosen in tombstones || chosen in runs {
          return Raised(Conflict);
        }
        CreateRun(chosen, NewManagedRun(now));
        return Done(chosen);
    }

    method StartRefused(id: RunId, now: real)
      modifies this`runs
      ensures Contents() == StartCompensation(old(Contents()), id, now)
    {
      if id in runs {
        ChangeStatus(id, Failed, now, None, Some(now));
      }
    }

    method EndRun(id: RunId, cv: Cv, now: real) returns (outcome: Result<bool>)
      modifies this`runs
      ensures match EndTransaction(old(Contents()), id, cv, now)
              case Raised(error) => outcome == Raised(error) && Contents() == old(Contents())
              case Done(None) => outcome == Done(false) && Contents() == old(Contents())
              case Done(Some(db)) => outcome == Done(true) && Contents() == db
    {
      if id !in runs {
        return Raised(NotFound);
      }
      if runs[id].status.Ended? {
        return Done(false);
      }
      if !InProgress(runs[id].status) {
        return Raised(Conflict);
      }
      if cv.run.Some? && cv.run.value != "" && cv.run != Some(id) && cv.state.CvRunning? {
        return Raised(Conflict);
      }
      ChangeStatus(id, Ending, now, None, None);
      return Done(true);
    }

    method EndRefused(id: RunId, cv: Cv, now: real)
      modifies this`runs
      ensures Contents() == EndCompensation(old(Contents()), id, cv, now)
    {
      if id in runs {
        var truthful := if cv.state.CvRunning? then Active else Failed;
        ChangeStatus(id, truthful, now, None, if truthful.Active? then None else Some(now));
      }
    }

    /** The policy check of a payload; an accepted one brings the run's data interval up to date. */
    method Admit(id: RunId, now: real, limits: Limits) returns (outcome: Result<RunId>)
      modifies this`runs
      ensures match ResolveIngestion(old(Contents()), id, now, limits)
              case Raised(error) => outcome == Raised(error) && Contents() == old(Contents())
              case Done(db) => outcome == Done(id) && Contents() == db
    {
      FoundRun(Contents());
      if id == "" || id in tombstones {
        return Raised(Rejected);
      }
      match FindInProgress(Contents()) {
        case Many =>
          return Raised(Broken);
        case Only(current) =>
          if current != id {
            return Raised(Rejected);
          }
          Touch(id, now);
        case Nobody =>
          if id in runs {
            Touch(id, now);
          } else if !limits.allowUnmanaged {
            return Raised(Rejected);
          } else if exists other :: other in runs && other != id && RecentlyActive(runs[other], now, limits) {
            return Raised(Rejected);
          } else {
            RegisterExternalRun(id, now);
          }
      }
      return Done(id);
    }

    /** Policy check and write share one transaction. */
    method GuardedIngest(id: RunId, write: Write, now: real, limits: Limits) returns (outcome: Result<RunId>)
      modifies this
      ensures match Ingest(old(Contents()), id, write, now, limits)
              case Raised(error) => outcome == Raised(error) && Contents() == old(Contents())
              case Done(db) => outcome == Done(id) && Contents() == db
    {
      var saved := Contents();
      outcome := Admit(id, now, limits);
      if outcome.Raised? {
        return;
      }
      var written := WriteRow(id, write);
      if !written {
        Rollback(saved);
        outcome := Raised(Broken);
      }
    }

    method WriteRow(id: RunId, write: Write) returns (ok: bool)
      modifies this`rows, this`views
      ensures match Written(old(Contents()), id, write)
              case Raised(_) => !ok
              case Done(db) => ok && Contents() == db
      ensures Written(old(Contents()), id, write).Raised? ==> Written(old(Contents()), id, write).error.Broken?
    {
      match write
      case NoRow => ok := true;
      case OneRow(key, table) =>
        ok := MayHold(Contents(), key, Row(table, id));
        if ok {
          rows := rows[key := Row(table, id)];
        }
      case OneView(key, evacuee) =>
        ok := MayHold(Contents(), evacuee, Row(Evacuee, id)) && (key in views ==> views[key] == evacuee);
        if ok {
          rows := rows[evacuee := Row(Evacuee, id)];
          views := views[key := evacuee];
        }
    }

    /** Views go first: once their evacuees are gone nothing says which run they belong to. */
    method DeleteRunRows(id: RunId)
      modifies this`rows, this`views
      ensures Contents() == DeleteRows(old(Contents()), id)
    {
      var evacuees := set k | k in rows && rows[k] == Row(Evacuee, id);
      views := map v | v in views && views[v] !in evacuees :: views[v];
      rows := map k | k in rows && rows[k].run != id :: rows[k];
    }

    method DeleteRun(id: RunId, confirmation: RunId, cv: Cv, now: real, limits: Limits) returns (outcome: Result<RunId>)
      modifies this
      ensures match Delete(old(Contents()), id, confirmation, cv, now, limits)
              case Raised(error) => outcome == Raised(error) && Contents() == old(Contents())
              case Done(db) => outcome == Done(id) && Contents() == db
    {
      if confirmation != id {
        return Raised(Invalid);
      }
      if id !in runs {
        return Raised(NotFound);
      }
      var run := runs[id];
      if InProgress(run.status) || Busy(cv, id) {
        return Raised(Conflict);
      }
      if run.origin.Unmanaged? && run.lastIngested.Some?
         && now - run.lastIngested.value < limits.externalWindow {
        return Raised(Conflict);
      }
      DeleteRunRows(id);
      tombstones := tombstones + {id};
      runs := runs - {id};
      return Done(id);
    }
  }
}
