/** What every interleaving of the lifecycle's transactions keeps. */
module RunLifecycleProperties {
  import opened Options
  import opened RunLifecycle

  // --- At most one run is in progress --------------------------------------

  predicate Ongoing(db: Db, id: RunId) {
    id in db.runs && (db.runs[id].status.Starting? || db.runs[id].status.Active? || db.runs[id].status.Ending?)
  }

  ghost predicate AtMostOne(db: Db) {
    forall a, b :: Ongoing(db, a) && Ongoing(db, b) ==> a == b
  }

  /** No other run than this one is in progress. */
  ghost predicate OngoingOnly(db: Db, id: RunId) {
    forall a :: Ongoing(db, a) ==> a == id
  }

  /** Nothing is in progress afterwards that was not before. */
  ghost predicate NoneBegun(before: Db, after: Db) {
    forall a :: Ongoing(after, a) ==> Ongoing(before, a)
  }

  lemma FindMeans(db: Db)
    ensures FindInProgress(db).Nobody? ==> forall a :: !Ongoing(db, a)
    ensures FindInProgress(db).Only? ==> Ongoing(db, FindInProgress(db).id) && OngoingOnly(db, FindInProgress(db).id)
    ensures AtMostOne(db) ==> !FindInProgress(db).Many?
  {
    var ids := RunsInProgress(db);
    forall a ensures a in ids <==> Ongoing(db, a) {}
    if ids != {} && AtMostOne(db) {
      var a :| a in ids;
      assert ids == {a};
    }
    if |ids| == 1 {
      forall a, b | a in ids && b in ids ensures a == b { SoleMember(ids, a, b); }
    }
  }

  lemma ReconcileBeginsNone(db: Db, cv: Cv, now: real, limits: Limits)
    requires Reconcile(db, cv, now, limits).Done?
    ensures NoneBegun(db, Reconcile(db, cv, now, limits).value)
  {
    FindMeans(db);
  }

  lemma RecoverBeginsNone(db: Db, cv: Cv, now: real)
    requires Recover(db, cv, now).Done?
    ensures NoneBegun(db, Recover(db, cv, now).value)
  {
    FindMeans(db);
  }

  lemma StartBeginsOne(db: Db, requested: RunId, generated: RunId, cv: Cv, now: real, limits: Limits)
    requires StartTransaction(db, requested, generated, cv, now, limits).Done?
    ensures var (after, id) := StartTransaction(db, requested, generated, cv, now, limits).value;
      OngoingOnly(after, id)
  {
    var settled := Reconcile(db, cv, now, limits).value;
    var (after, id) := StartTransaction(db, requested, generated, cv, now, limits).value;
    FindMeans(settled);
    forall a | Ongoing(after, a) ensures a == id {
      assert !Ongoing(settled, a);
    }
  }

  lemma ResolveIngestionBeginsNone(db: Db, id: RunId, now: real, limits: Limits)
    requires ResolveIngestion(db, id, now, limits).Done?
    ensures NoneBegun(db, ResolveIngestion(db, id, now, limits).value)
  {
  }

  lemma IngestBeginsNone(db: Db, id: RunId, write: Write, now: real, limits: Limits)
    requires Ingest(db, id, write, now, limits).Done?
    ensures NoneBegun(db, Ingest(db, id, write, now, limits).value)
  {
    ResolveIngestionBeginsNone(db, id, now, limits);
    var admitted := ResolveIngestion(db, id, now, limits).value;
    assert Ingest(db, id, write, now, limits).value.runs == admitted.runs;
  }

  lemma BackfillBeginsNone(db: Db, spans: RunId -> (real, real), now: real)
    ensures NoneBegun(db, Backfill(db, spans, now))
  {
  }

  lemma DeleteBeginsNone(db: Db, id: RunId, confirmation: RunId, cv: Cv, now: real, limits: Limits)
    requires Delete(db, id, confirmation, cv, now, limits).Done?
    ensures NoneBegun(db, Delete(db, id, confirmation, cv, now, limits).value)
  {
  }

  /** While the worker is asked to stop a run, no other run is in progress. */
  ghost predicate Exclusive(s: System) {
    AtMostOne(s.db) && (s.lock.AwaitingStop? ==> OngoingOnly(s.db, s.lock.id))
  }

  lemma EndKeepsExclusive(s: System, id: RunId, cv: Cv, now: real)
    requires Exclusive(s)
    ensures Exclusive(EndBegin(s, id, cv, now))
  {
    if id in s.db.runs && InProgress(s.db.runs[id].status) {
      assert Ongoing(s.db, id);
      var after := SetStatus(s.db, id, Ending, now, None, None);
      assert NoneBegun(s.db, after);
    }
  }

  lemma StartKeepsExclusive(
    s: System, seen: Cv, cv: Cv, requested: RunId, generated: RunId, now: real, limits: Limits)
    requires Exclusive(s)
    ensures Exclusive(StartBegin(s, seen, cv, requested, generated, now, limits))
  {
    if StartTransaction(s.db, requested, generated, cv, now, limits).Done? {
      StartBeginsOne(s.db, requested, generated, cv, now, limits);
    }
  }

  /** Even the compensation that puts a closed run back to active. */
  lemma AnswersKeepExclusive(s: System, accepted: bool, cv: Cv, now: real)
    requires Exclusive(s)
    ensures Exclusive(StartAnswer(s, accepted, now))
    ensures Exclusive(EndAnswer(s, accepted, cv, now))
  {
    if s.lock.AwaitingStart? {
      assert NoneBegun(s.db, StartCompensation(s.db, s.lock.id, now));
    }
    if s.lock.AwaitingStop? {
      forall a | Ongoing(EndCompensation(s.db, s.lock.id, cv, now), a) ensures a == s.lock.id {
        assert a != s.lock.id ==> Ongoing(s.db, a);
      }
    }
  }

  lemma StepKeepsExclusive(s: System, step: Step, now: real, limits: Limits)
    requires Exclusive(s)
    ensures Exclusive(Next(s, step, now, limits))
  {
    match step
    case Reconciles(cv) =>
      if Reconcile(s.db, cv, now, limits).Done? {
        ReconcileBeginsNone(s.db, cv, now, limits);
      }
    case StartBegins(seen, cv, requested, generated) =>
      StartKeepsExclusive(s, seen, cv, requested, generated, now, limits);
    case StartAnswered(accepted) => AnswersKeepExclusive(s, accepted, Cv(CvOffline, None, false), now);
    case EndBegins(id, cv) => EndKeepsExclusive(s, id, cv, now);
    case EndAnswered(accepted, cv) => AnswersKeepExclusive(s, accepted, cv, now);
    case Ingests(id, write) =>
      if Ingest(s.db, id, write, now, limits).Done? {
        IngestBeginsNone(s.db, id, write, now, limits);
      }
    case Deletes(id, confirmation, cv) =>
      if Delete(s.db, id, confirmation, cv, now, limits).Done? {
        DeleteBeginsNone(s.db, id, confirmation, cv, now, limits);
      }
    case Backfills(spans) => BackfillBeginsNone(s.db, spans, now);
    case Recovers(cv) =>
      if Recover(s.db, cv, now).Done? {
        RecoverBeginsNone(s.db, cv, now);
      }
    case Crashes =>
  }

  /**
   In every interleaving, and whatever the worker reports, at most one run is
   starting, active or ending; the database's own index is not relied upon.
   */
  lemma {:induction false} AtMostOneInProgress(start: System, limits: Limits, trace: seq<Timed>)
    requires Exclusive(start)
    ensures Exclusive(After(start, limits, trace))
  {
    if trace != [] {
      var front, last := trace[..|trace| - 1], trace[|trace| - 1];
      AtMostOneInProgress(start, limits, front);
      StepKeepsExclusive(After(start, limits, front), last.step, last.now, limits);
    }
  }

  // --- A tombstone is final ------------------------------------------------

  ghost predicate HasRow(db: Db, id: RunId) {
    exists k :: k in db.rows && db.rows[k].run == id
  }

  /** A gallery view belongs to the run of the evacuee it points at. */
  predicate ViewOf(db: Db, id: RunId, v: nat) {
    v in db.views && db.views[v] in db.rows && db.rows[db.views[v]].table.Evacuee? && db.rows[db.views[v]].run == id
  }

  ghost predicate HasView(db: Db, id: RunId) { exists v :: ViewOf(db, id, v) }

  /** A deleted id has no run, no row and no view. */
  ghost predicate Resting(db: Db, id: RunId) {
    id in db.tombstones ==> id !in db.runs && !HasRow(db, id)
  }

  lemma ReconcileRests(db: Db, cv: Cv, now: real, limits: Limits, id: RunId)
    requires Reconcile(db, cv, now, limits).Done?
    ensures var after := Reconcile(db, cv, now, limits).value;
      after.runs.Keys == db.runs.Keys && after == db.(runs := after.runs)
  {
    FoundRun(db);
  }

  lemma RecoverRests(db: Db, cv: Cv, now: real, id: RunId)
    requires Recover(db, cv, now).Done?
    ensures var after := Recover(db, cv, now).value;
      after.runs.Keys == db.runs.Keys && after == db.(runs := after.runs)
  {
    FoundRun(db);
  }

  lemma StartRests(db: Db, requested: RunId, generated: RunId, cv: Cv, now: real, limits: Limits, id: RunId)
    requires StartTransaction(db, requested, generated, cv, now, limits).Done? && Resting(db, id)
    ensures Resting(StartTransaction(db, requested, generated, cv, now, limits).value.0, id)
    ensures StartTransaction(db, requested, generated, cv, now, limits).value.0.tombstones == db.tombstones
  {
    ReconcileRests(db, cv, now, limits, id);
  }

  lemma AdmittedRests(db: Db, written: RunId, now: real, limits: Limits, id: RunId)
    requires ResolveIngestion(db, written, now, limits).Done? && Resting(db, id)
    ensures written !in db.tombstones
    ensures var after := ResolveIngestion(db, written, now, limits).value;
      Resting(after, id) && after == db.(runs := after.runs)
  {
    FoundRun(db);
  }

  lemma IngestRests(db: Db, written: RunId, write: Write, now: real, limits: Limits, id: RunId)
    requires Ingest(db, written, write, now, limits).Done? && Resting(db, id)
    ensures Resting(Ingest(db, written, write, now, limits).value, id)
    ensures Ingest(db, written, write, now, limits).value.tombstones == db.tombstones
  {
    AdmittedRests(db, written, now, limits, id);
    var admitted := ResolveIngestion(db, written, now, limits).value;
    var after := Ingest(db, written, write, now, limits).value;
    forall k | k in after.rows ensures after.rows[k].run == written || (k in db.rows && db.rows[k] == after.rows[k]) {}
  }

  lemma BackfillRests(db: Db, spans: RunId -> (real, real), now: real, id: RunId)
    requires Resting(db, id)
    ensures Resting(Backfill(db, spans, now), id)
  {
  }

  lemma DeleteRests(db: Db, deleted: RunId, confirmation: RunId, cv: Cv, now: real, limits: Limits, id: RunId)
    requires Delete(db, deleted, confirmation, cv, now, limits).Done? && Resting(db, id)
    ensures var after := Delete(db, deleted, confirmation, cv, now, limits).value;
      Resting(after, id) && after.tombstones == db.tombstones + {deleted}
  {
    var after := Delete(db, deleted, confirmation, cv, now, limits).value;
    forall k | k in after.rows ensures k in db.rows && db.rows[k] == after.rows[k] && after.rows[k].run != deleted {}
  }

  lemma StepRests(s: System, step: Step, now: real, limits: Limits, id: RunId)
    requires Resting(s.db, id)
    ensures Resting(Next(s, step, now, limits).db, id)
    ensures s.db.tombstones <= Next(s, step, now, limits).db.tombstones
  {
    match step
    case Reconciles(cv) =>
      if Reconcile(s.db, cv, now, limits).Done? {
        ReconcileRests(s.db, cv, now, limits, id);
      }
    case StartBegins(seen, cv, requested, generated) =>
      if StartTransaction(s.db, requested, generated, cv, now, limits).Done? {
        StartRests(s.db, requested, generated, cv, now, limits, id);
      }
    case StartAnswered(_) =>
    case EndBegins(_, _) =>
    case EndAnswered(_, _) =>
    case Ingests(written, write) =>
      if Ingest(s.db, written, write, now, limits).Done? {
        IngestRests(s.db, written, write, now, limits, id);
      }
    case Deletes(deleted, confirmation, cv) =>
      if Delete(s.db, deleted, confirmation, cv, now, limits).Done? {
        DeleteRests(s.db, deleted, confirmation, cv, now, limits, id);
      }
    case Backfills(spans) => BackfillRests(s.db, spans, now, id);
    case Recovers(cv) =>
      if Recover(s.db, cv, now).Done? {
        RecoverRests(s.db, cv, now, id);
      }
    case Crashes =>
  }

  /**
   Once an id is tombstoned it stays so, and never again has a run, a metric,
   an alert, an observation, an evacuee or a gallery view.
   */
  lemma {:induction false} TombstonesAreFinal(start: System, limits: Limits, trace: seq<Timed>, id: RunId, n: nat)
    requires Resting(start.db, id) && n <= |trace|
    requires id in After(start, limits, trace[..n]).db.tombstones
    ensures Resting(After(start, limits, trace).db, id)
    ensures var db := After(start, limits, trace).db;
      id in db.tombstones && id !in db.runs && !HasRow(db, id) && !HasView(db, id)
    decreases |trace|
  {
    AlwaysRests(start, limits, trace, id);
    if n == |trace| {
      assert trace[..n] == trace;
    } else {
      var front, last := trace[..|trace| - 1], trace[|trace| - 1];
      assert front[..n] == trace[..n];
      TombstonesAreFinal(start, limits, front, id, n);
      StepRests(After(start, limits, front), last.step, last.now, limits, id);
    }
  }

  lemma {:induction false} AlwaysRests(start: System, limits: Limits, trace: seq<Timed>, id: RunId)
    requires Resting(start.db, id)
    ensures Resting(After(start, limits, trace).db, id)
  {
    if trace != [] {
      var front, last := trace[..|trace| - 1], trace[|trace| - 1];
      AlwaysRests(start, limits, front, id);
      StepRests(After(start, limits, front), last.step, last.now, limits, id);
    }
  }

  // --- What a deletion touches ---------------------------------------------

  ghost predicate SameRows(a: Db, b: Db, id: RunId) {
    && (forall k :: k in a.rows && a.rows[k].run == id ==> k in b.rows && b.rows[k] == a.rows[k])
    && (forall k :: k in b.rows && b.rows[k].run == id ==> k in a.rows)
    && (forall v :: ViewOf(a, id, v) ==> v in b.views && b.views[v] == a.views[v])
    && (forall v :: ViewOf(b, id, v) ==> v in a.views)
  }

  /** No view without the evacuee it belongs to. */
  ghost predicate Anchored(db: Db) {
    forall v :: v in db.views ==> db.views[v] in db.rows && db.rows[db.views[v]].table.Evacuee?
  }

  /** A deletion removes everything of its run, nothing of any other, and leaves no view behind. */
  lemma DeleteIsExact(db: Db, id: RunId, confirmation: RunId, cv: Cv, now: real, limits: Limits, other: RunId)
    requires Delete(db, id, confirmation, cv, now, limits).Done?
    ensures var after := Delete(db, id, confirmation, cv, now, limits).value;
      && id in after.tombstones && id !in after.runs && !HasRow(after, id) && !HasView(after, id)
      && (Anchored(db) ==> Anchored(after))
      && (other != id ==>
            && SameRows(db, after, other)
            && (other in db.runs <==> other in after.runs)
            && (other in db.runs ==> after.runs[other] == db.runs[other])
            && (other in db.tombstones <==> other in after.tombstones))
  {
  }

  // --- Ingestion never mixes runs ------------------------------------------

  /** While a run is in progress, no payload of any other run is accepted. */
  lemma OnlyTheCurrentRunIsFed(db: Db, current: RunId, id: RunId, write: Write, now: real, limits: Limits)
    requires AtMostOne(db) && Ongoing(db, current)
    ensures Ingest(db, id, write, now, limits).Done? ==> id == current
  {
    FindMeans(db);
  }

  lemma AdmittedSparesOthers(db: Db, id: RunId, now: real, limits: Limits, other: RunId)
    requires ResolveIngestion(db, id, now, limits).Done? && other != id
    ensures var after := ResolveIngestion(db, id, now, limits).value;
      && after == db.(runs := after.runs)
      && (other in db.runs <==> other in after.runs)
      && (other in db.runs ==> after.runs[other] == db.runs[other])
  {
  }

  lemma WrittenSparesOthers(db: Db, id: RunId, write: Write, other: RunId)
    requires Written(db, id, write).Done? && other != id
    ensures SameRows(db, Written(db, id, write).value, other)
    ensures Written(db, id, write).value.runs == db.runs
  {
  }

  /** An accepted payload touches its own run and rows and nothing of any other. */
  lemma IngestSparesOthers(db: Db, id: RunId, write: Write, now: real, limits: Limits, other: RunId)
    requires Ingest(db, id, write, now, limits).Done? && other != id
    ensures var after := Ingest(db, id, write, now, limits).value;
      && SameRows(db, after, other)
      && (other in db.runs <==> other in after.runs)
      && (other in db.runs ==> after.runs[other] == db.runs[other])
  {
    var admitted := ResolveIngestion(db, id, now, limits).value;
    AdmittedSparesOthers(db, id, now, limits, other);
    WrittenSparesOthers(admitted, id, write, other);
    assert SameRows(db, admitted, other);
  }

  // --- Competing external runs ---------------------------------------------

  ghost predicate Recent(db: Db, id: RunId, now: real, limits: Limits) {
    && id in db.runs && db.runs[id].origin.Unmanaged?
    && db.runs[id].lastIngested.Some? && now - db.runs[id].lastIngested.value <= limits.externalWindow
  }

  /** Two external runs are receiving data at once. */
  ghost predicate Competing(db: Db, a: RunId, b: RunId, now: real, limits: Limits) {
    a != b && Recent(db, a, now, limits) && Recent(db, b, now, limits)
  }

  /** What a guarded writer adds fits the rows that are there. */
  predicate Fits(db: Db, id: RunId, write: Write) {
    match write
    case NoRow => true
    case OneRow(key, table) => key in db.rows ==> db.rows[key] == Row(table, id)
    case OneView(key, evacuee) =>
      && (evacuee in db.rows ==> db.rows[evacuee] == Row(Evacuee, id))
      && (key in db.views ==> db.views[key] == evacuee)
  }

  /** Nobody else stands in the way of this id's payload. */
  ghost predicate Welcome(db: Db, id: RunId, now: real, limits: Limits) {
    && id != "" && id !in db.tombstones
    && (forall other :: Ongoing(db, other) ==> other == id)
    && (id !in db.runs ==>
          limits.allowUnmanaged && forall other :: other != id ==> !Recent(db, other, now, limits))
  }

  /**
   Exactly which payloads are accepted: those with a usable id that is not
   tombstoned, with nobody else in progress, of a known run or, where unmanaged
   runs are allowed, of a new one beside which no external run receives data,
   as long as what is written fits the rows.
   */
  lemma AcceptedExactly(db: Db, id: RunId, write: Write, now: real, limits: Limits)
    ensures Ingest(db, id, write, now, limits).Done? <==> Welcome(db, id, now, limits) && Fits(db, id, write)
  {
    AdmittedExactly(db, id, now, limits);
    if ResolveIngestion(db, id, now, limits).Done? {
      AdmittedRows(db, id, write, now, limits);
    }
  }

  lemma AdmittedExactly(db: Db, id: RunId, now: real, limits: Limits)
    ensures ResolveIngestion(db, id, now, limits).Done? <==> Welcome(db, id, now, limits)
  {
    FindMeans(db);
    FoundRun(db);
    if Welcome(db, id, now, limits) {
      assert AtMostOne(db);
      forall other | other in db.runs && other != id && id !in db.runs
        ensures !RecentlyActive(db.runs[other], now, limits)
      {
        assert !Recent(db, other, now, limits);
      }
    }
  }

  lemma AdmittedRows(db: Db, id: RunId, write: Write, now: real, limits: Limits)
    requires ResolveIngestion(db, id, now, limits).Done?
    ensures Written(ResolveIngestion(db, id, now, limits).value, id, write).Done? <==> Fits(db, id, write)
  {
    FoundRun(db);
  }

  /** A payload of this run is one that is accepted, and the run is external or becomes so. */
  ghost predicate Feeds(s: System, step: Step, now: real, limits: Limits, id: RunId) {
    && step.Ingests? && step.id == id && Welcome(s.db, id, now, limits) && Fits(s.db, id, step.write)
    && (id in s.db.runs ==> s.db.runs[id].origin.Unmanaged?)
  }

  /** An external run that is already there is fed while another one is receiving data. */
  ghost predicate Resumes(s: System, step: Step, now: real, limits: Limits, id: RunId, other: RunId) {
    Feeds(s, step, now, limits, id) && id in s.db.runs && Recent(s.db, other, now, limits)
  }

  /** Nothing but the status of a run differs. */
  ghost predicate SameIntake(before: Db, after: Db, id: RunId) {
    id in after.runs ==>
      || (id in before.runs && after.runs[id].origin == before.runs[id].origin
          && after.runs[id].lastIngested == before.runs[id].lastIngested)
      || !after.runs[id].origin.Unmanaged?
  }

  lemma IntakeKept(s: System, step: Step, now: real, limits: Limits, id: RunId)
    requires !step.Ingests?
    ensures SameIntake(s.db, Next(s, step, now, limits).db, id)
  {
    match step
    case Reconciles(cv) => FoundRun(s.db);
    case StartBegins(seen, cv, requested, generated) => FoundRun(s.db);
    case StartAnswered(_) =>
    case EndBegins(_, _) =>
    case EndAnswered(_, _) =>
    case Deletes(_, _, _) =>
    case Backfills(_) =>
    case Recovers(cv) => FoundRun(s.db);
    case Crashes =>
  }

  lemma IngestFeeds(db: Db, written: RunId, write: Write, now: real, limits: Limits, id: RunId)
    requires Ingest(db, written, write, now, limits).Done? && limits.externalWindow >= 0.0
    ensures var after := Ingest(db, written, write, now, limits).value;
      if id != written then Recent(after, id, now, limits) <==> Recent(db, id, now, limits)
      else Recent(after, id, now, limits) <==> (id in db.runs ==> db.runs[id].origin.Unmanaged?)
  {
    FoundRun(db);
    var admitted := ResolveIngestion(db, written, now, limits).value;
    assert Ingest(db, written, write, now, limits).value.runs == admitted.runs;
  }

  /** A run is receiving data after a step only if it was before or was fed by it. */
  lemma RecentStep(s: System, step: Step, now: real, limits: Limits, id: RunId)
    requires limits.externalWindow >= 0.0
    ensures var after := Next(s, step, now, limits).db;
      && (Recent(after, id, now, limits) ==> Recent(s.db, id, now, limits) || Feeds(s, step, now, limits, id))
      && (step.Ingests? && Recent(s.db, id, now, limits) ==> Recent(after, id, now, limits))
      && (Feeds(s, step, now, limits, id) ==> Recent(after, id, now, limits))
  {
    if step.Ingests? {
      AcceptedExactly(s.db, step.id, step.write, now, limits);
      if Ingest(s.db, step.id, step.write, now, limits).Done? {
        IngestFeeds(s.db, step.id, step.write, now, limits, id);
      }
    } else {
      IntakeKept(s, step, now, limits, id);
    }
  }

  /** No external run appears beside another that is still receiving data. */
  lemma NewcomersAreRefused(db: Db, id: RunId, now: real, limits: Limits, other: RunId)
    requires Recent(db, other, now, limits) && id !in db.runs
    ensures ResolveIngestion(db, id, now, limits).Raised?
  {
  }

  /**
   Two external runs begin to receive data at once exactly when one that had
   gone quiet resumes beside the other; a new one is refused.
   */
  lemma CompetitionBeginsExactly(s: System, step: Step, now: real, limits: Limits, a: RunId, b: RunId)
    requires limits.externalWindow >= 0.0 && a != b && !Competing(s.db, a, b, now, limits)
    ensures Competing(Next(s, step, now, limits).db, a, b, now, limits)
       <==> Resumes(s, step, now, limits, a, b) || Resumes(s, step, now, limits, b, a)
  {
    RecentStep(s, step, now, limits, a);
    RecentStep(s, step, now, limits, b);
    if Recent(s.db, a, now, limits) && b !in s.db.runs {
      NewcomersAreRefused(s.db, b, now, limits, a);
    }
    if Recent(s.db, b, now, limits) && a !in s.db.runs {
      NewcomersAreRefused(s.db, a, now, limits, b);
    }
  }

  /** Some step resumed one of the two beside the other. */
  ghost predicate ResumedAt(start: System, limits: Limits, trace: seq<Timed>, n: nat, a: RunId, b: RunId)
    requires n < |trace|
  {
    var s := After(start, limits, trace[..n]);
    || Resumes(s, trace[n].step, trace[n].now, limits, a, b)
    || Resumes(s, trace[n].step, trace[n].now, limits, b, a)
  }

  /** Over any run of steps they receive data at once only if one has resumed beside the other. */
  lemma {:induction false} CompetitionNeedsResumption(
    start: System, limits: Limits, trace: seq<Timed>, now: real, a: RunId, b: RunId) returns (n: nat)
    requires limits.externalWindow >= 0.0 && Ordered(trace)
    requires forall k :: 0 <= k < |trace| ==> trace[k].now <= now
    requires Competing(After(start, limits, trace).db, a, b, now, limits)
    requires !Competing(start.db, a, b, if trace == [] then now else trace[0].now, limits)
    ensures n < |trace| && ResumedAt(start, limits, trace, n, a, b)
  {
    var front, last := trace[..|trace| - 1], |trace| - 1;
    var s, moment := After(start, limits, front), trace[last].now;
    assert Competing(After(start, limits, trace).db, a, b, moment, limits);
    if Competing(s.db, a, b, moment, limits) {
      n := CompetitionNeedsResumption(start, limits, front, moment, a, b);
      assert trace[..n] == front[..n];
    } else {
      CompetitionBeginsExactly(s, trace[last].step, moment, limits, a, b);
      n := last;
    }
  }

  /** And it happens: a run that has gone quiet resumes after another was registered. */
  lemma QuietRunResumes(limits: Limits) returns (trace: seq<Timed>, now: real)
    requires limits.allowUnmanaged && limits.externalWindow >= 0.0
    ensures Ordered(trace) && Competing(After(EMPTY, limits, trace).db, "a", "b", now, limits)
  {
    now := limits.externalWindow + 1.0;
    var first, second, third :=
      Timed(Ingests("a", NoRow), 0.0), Timed(Ingests("b", NoRow), now), Timed(Ingests("a", NoRow), now);
    OneMore(EMPTY, limits, [], first);
    assert RunsInProgress(EMPTY.db) == {};
    var one := [] + [first];
    assert After(EMPTY, limits, one).db.runs == map["a" := NewExternalRun(0.0)];
    OneMore(EMPTY, limits, one, second);
    assert RunsInProgress(After(EMPTY, limits, one).db) == {};
    var two := one + [second];
    assert After(EMPTY, limits, two).db.runs == map["a" := NewExternalRun(0.0), "b" := NewExternalRun(now)];
    OneMore(EMPTY, limits, two, third);
    assert RunsInProgress(After(EMPTY, limits, two).db) == {};
    trace := two + [third];
  }

  // --- Backfill ------------------------------------------------------------

  /** Backfilling imports exactly the ids that have rows but no run and no tombstone, and a second pass nothing. */
  lemma BackfillIsExact(db: Db, spans: RunId -> (real, real), now: real, id: RunId)
    ensures var after := Backfill(db, spans, now);
      && (id in after.runs <==> id in db.runs || (id != "" && HasRow(db, id) && id !in db.tombstones))
      && (id in db.runs ==> after.runs[id] == db.runs[id])
      && (id in after.runs && id !in db.runs ==>
            var (from, to) := spans(id);
            after.runs[id] == Run(Ended, Legacy, from, Some(from), Some(to), Some(from), Some(to), now))
      && after == db.(runs := after.runs)
    ensures forall more: RunId -> (real, real), later: real ::
      Backfill(Backfill(db, spans, now), more, later) == Backfill(db, spans, now)
  {
    var after := Backfill(db, spans, now);
    assert Missing(after) == {};
    forall more: RunId -> (real, real), later: real ensures Backfill(after, more, later) == after {
      assert Backfill(after, more, later).runs == after.runs;
    }
  }

  // --- Closed runs ---------------------------------------------------------

  /** The one step that brings a closed run back. */
  ghost predicate Reopens(s: System, step: Step, id: RunId) {
    && step.EndAnswered? && !step.accepted && s.lock == AwaitingStop(id) && step.cv.state.CvRunning?
  }

  /**
   A run that is closed is in progress after a step exactly when that step is
   the compensation of a refused stop while the worker reports running.
   */
  lemma ClosedRunsReopenExactly(s: System, step: Step, now: real, limits: Limits, id: RunId)
    requires id in s.db.runs && !Ongoing(s.db, id)
    ensures Ongoing(Next(s, step, now, limits).db, id) <==> Reopens(s, step, id)
  {
    match step
    case Reconciles(cv) =>
      if Reconcile(s.db, cv, now, limits).Done? {
        ReconcileBeginsNone(s.db, cv, now, limits);
      }
    case StartBegins(seen, cv, requested, generated) =>
      if StartTransaction(s.db, requested, generated, cv, now, limits).Done? {
        ReconcileBeginsNone(s.db, cv, now, limits);
        ReconcileRests(s.db, cv, now, limits, id);
      }
    case StartAnswered(_) =>
    case EndBegins(_, _) =>
    case EndAnswered(_, _) =>
    case Ingests(written, write) =>
      if Ingest(s.db, written, write, now, limits).Done? {
        IngestBeginsNone(s.db, written, write, now, limits);
      }
    case Deletes(deleted, confirmation, cv) =>
      if Delete(s.db, deleted, confirmation, cv, now, limits).Done? {
        DeleteBeginsNone(s.db, deleted, confirmation, cv, now, limits);
      }
    case Backfills(spans) => BackfillBeginsNone(s.db, spans, now);
    case Recovers(cv) =>
      if Recover(s.db, cv, now).Done? {
        RecoverBeginsNone(s.db, cv, now);
      }
    case Crashes =>
  }

  lemma OneMore(start: System, limits: Limits, trace: seq<Timed>, timed: Timed)
    ensures After(start, limits, trace + [timed])
         == Next(After(start, limits, trace), timed.step, timed.now, limits)
  {
    assert (trace + [timed])[..|trace|] == trace;
  }

  /** From the empty database a run is started and the worker accepts. */
  lemma StartedRun(limits: Limits) returns (trace: seq<Timed>)
    ensures After(EMPTY, limits, trace) == System(EMPTY.db.(runs := map["r" := NewManagedRun(0.0)]), Free)
  {
    var ready := Cv(CvReady, None, true);
    var begin, answer := Timed(StartBegins(ready, ready, "r", ""), 0.0), Timed(StartAnswered(true), 0.0);
    OneMore(EMPTY, limits, [], begin);
    trace := [] + [begin];
    assert After(EMPTY, limits, trace) == System(EMPTY.db.(runs := map["r" := NewManagedRun(0.0)]), AwaitingStart("r"));
    OneMore(EMPTY, limits, trace, answer);
    trace := trace + [answer];
  }

  /** A run that was started, confirmed by the worker and asked to end. */
  lemma EndingRun(limits: Limits) returns (trace: seq<Timed>)
    ensures var s := After(EMPTY, limits, trace);
      s.lock == AwaitingStop("r") && s.db.runs.Keys == {"r"} && s.db.runs["r"].status.Ending?
  {
    var running := Cv(CvRunning, Some("r"), true);
    var confirm, end := Timed(Reconciles(running), 0.0), Timed(EndBegins("r", running), 0.0);
    trace := StartedRun(limits);
    assert RunsInProgress(After(EMPTY, limits, trace).db) == {"r"};
    OneMore(EMPTY, limits, trace, confirm);
    trace := trace + [confirm];
    assert After(EMPTY, limits, trace).db.runs["r"].status.Active?;
    OneMore(EMPTY, limits, trace, end);
    trace := trace + [end];
  }

  /**
   Such a step happens: reconcile ends the run while the stop is still out,
   and the refused stop reopens it, even with the worker on another run; the
   active run then still carries the time it ended.
   */
  lemma EndedRunReopens(limits: Limits) returns (before: seq<Timed>, last: Timed)
    ensures var s := After(EMPTY, limits, before); "r" in s.db.runs && s.db.runs["r"].status.Ended?
    ensures last.step.EndAnswered? && last.step.cv.run == Some("x")
    ensures var s := After(EMPTY, limits, before + [last]);
      "r" in s.db.runs && s.db.runs["r"].status.Active? && s.db.runs["r"].endedAt.Some?
  {
    before := EndingRun(limits);
    assert RunsInProgress(After(EMPTY, limits, before).db) == {"r"};
    var ends := Timed(Reconciles(Cv(CvReady, None, true)), 0.0);
    OneMore(EMPTY, limits, before, ends);
    before := before + [ends];
    last := Timed(EndAnswered(false, Cv(CvRunning, Some("x"), true)), 0.0);
    OneMore(EMPTY, limits, before, last);
  }

  // --- What makes a run active ---------------------------------------------

  /** Only a worker that runs this very run, or the reopening just described, makes a run active. */
  lemma ActiveOnlyWhileWorkerRuns(s: System, step: Step, now: real, limits: Limits, id: RunId)
    requires Ongoing(Next(s, step, now, limits).db, id) && Next(s, step, now, limits).db.runs[id].status.Active?
    requires id in s.db.runs ==> !s.db.runs[id].status.Active?
    ensures (step.Reconciles? && step.cv.state.CvRunning? && step.cv.run == Some(id))
      || (step.EndAnswered? && !step.accepted && s.lock == AwaitingStop(id) && step.cv.state.CvRunning?)
  {
    match step
    case StartBegins(_, cv, requested, generated) =>
      if StartTransaction(s.db, requested, generated, cv, now, limits).Done? {
        StartBeginsOne(s.db, requested, generated, cv, now, limits);
      }
    case _ =>
  }

  predicate Confirmed(db: Db, id: RunId) {
    id in db.runs && db.runs[id].origin.Managed? && db.runs[id].startedAt.Some?
  }

  /** The worker reports, to a reconciliation, that it runs this very run. */
  predicate Confirms(step: Step, id: RunId) {
    step.Reconciles? && step.cv.state.CvRunning? && step.cv.run == Some(id)
  }

  lemma ReconcileConfirms(db: Db, cv: Cv, now: real, limits: Limits, id: RunId)
    requires Reconcile(db, cv, now, limits).Done? && Confirmed(Reconcile(db, cv, now, limits).value, id)
    ensures Confirmed(db, id)
      || (Confirms(Reconciles(cv), id) && Ongoing(Reconcile(db, cv, now, limits).value, id))
  {
    FoundRun(db);
  }

  lemma StepConfirms(s: System, step: Step, now: real, limits: Limits, id: RunId)
    requires Confirmed(Next(s, step, now, limits).db, id)
    ensures Confirmed(s.db, id) || Confirms(step, id)
  {
    match step
    case Reconciles(cv) =>
      if Reconcile(s.db, cv, now, limits).Done? {
        ReconcileConfirms(s.db, cv, now, limits, id);
      }
    case StartBegins(_, cv, requested, generated) =>
      if StartTransaction(s.db, requested, generated, cv, now, limits).Done? {
        var settled := Reconcile(s.db, cv, now, limits).value;
        FindMeans(settled);
        if Confirmed(settled, id) {
          ReconcileConfirms(s.db, cv, now, limits, id);
        }
      }
    case Ingests(written, write) =>
      if Ingest(s.db, written, write, now, limits).Done? {
        IngestConfirms(s.db, written, write, now, limits, id);
      }
    case _ =>
  }

  lemma IngestConfirms(db: Db, written: RunId, write: Write, now: real, limits: Limits, id: RunId)
    requires Ingest(db, written, write, now, limits).Done?
    requires Confirmed(Ingest(db, written, write, now, limits).value, id)
    ensures Confirmed(db, id)
  {
    FoundRun(db);
    var admitted := ResolveIngestion(db, written, now, limits).value;
    assert Ingest(db, written, write, now, limits).value.runs == admitted.runs;
  }

  /** A managed run has a start time only once a reconciliation saw the worker run this exact run. */
  lemma {:induction false} StartedOnlyWhenConfirmed(
    start: System, limits: Limits, trace: seq<Timed>, id: RunId) returns (k: nat)
    requires !Confirmed(start.db, id) && Confirmed(After(start, limits, trace).db, id)
    ensures k < |trace| && Confirms(trace[k].step, id)
  {
    assert trace != [];
    var front, last := trace[..|trace| - 1], trace[|trace| - 1];
    if Confirmed(After(start, limits, front).db, id) {
      k := StartedOnlyWhenConfirmed(start, limits, front, id);
    } else {
      StepConfirms(After(start, limits, front), last.step, last.now, limits, id);
      k := |trace| - 1;
    }
  }

  /**
   What a reconciliation makes of the run in progress: ended only if the
   worker is ready again after an end request, failed only before it became
   active, interrupted otherwise, and closed at that moment.
   */
  lemma ClosedAsReported(db: Db, cv: Cv, now: real, limits: Limits, id: RunId)
    requires AtMostOne(db) && Ongoing(db, id)
    ensures Reconcile(db, cv, now, limits).Done? && id in Reconcile(db, cv, now, limits).value.runs
    ensures var before, after := db.runs[id], Reconcile(db, cv, now, limits).value.runs[id];
      var late := (before.status.Starting? && now - before.requestedAt > limits.startTimeout)
                  || (before.status.Ending? && now - before.changedAt > limits.stopTimeout);
      var lost := cv.state in {CvFailed, CvOffline};
      && (after.status.Ended? <==> before.status.Ending? && cv.state.CvReady?)
      && (after.status.Failed? <==>
            before.status.Starting? && (lost || (late && !(cv.state.CvRunning? && cv.run == Some(id)))))
      && (after.status.Interrupted? <==>
            || (before.status.Active? && (lost || (cv.state.CvReady? && cv.run != Some(id))))
            || (before.status.Ending? && !cv.state.CvReady? && (lost || late)))
      && (!InProgress(after.status) ==> after.endedAt == Some(now) && after.changedAt == now)
      && (after.status == before.status ==> after == before)
  {
    FindMeans(db);
  }

  // --- External runs -------------------------------------------------------

  predicate LockedOn(s: System, id: RunId) {
    s.lock == AwaitingStart(id) || s.lock == AwaitingStop(id)
  }

  /** The backend never claims that an external producer finished. */
  predicate NeverClosed(s: System, id: RunId) {
    && (id in s.db.runs && s.db.runs[id].origin.Unmanaged? ==>
          s.db.runs[id].status.External? && s.db.runs[id].endedAt.None?)
    && (LockedOn(s, id) ==> if id in s.db.runs then !s.db.runs[id].origin.Unmanaged? else id in s.db.tombstones)
  }

  /** The runs are those of before, but for what happened to runs in progress. */
  ghost predicate SettledOnly(before: Db, after: Db, id: RunId) {
    && after.tombstones == before.tombstones && (id in after.runs <==> id in before.runs)
    && (id in before.runs && !Ongoing(before, id) ==> after.runs[id] == before.runs[id])
    && (id in before.runs ==> after.runs[id].origin == before.runs[id].origin)
  }

  lemma ReconcileSettles(db: Db, cv: Cv, now: real, limits: Limits, id: RunId)
    requires Reconcile(db, cv, now, limits).Done?
    ensures SettledOnly(db, Reconcile(db, cv, now, limits).value, id)
  {
    FoundRun(db);
  }

  lemma IngestClosesNone(s: System, written: RunId, write: Write, now: real, limits: Limits, id: RunId)
    requires NeverClosed(s, id) && Ingest(s.db, written, write, now, limits).Done?
    ensures NeverClosed(s.(db := Ingest(s.db, written, write, now, limits).value), id)
  {
    FoundRun(s.db);
    var admitted := ResolveIngestion(s.db, written, now, limits).value;
    var after := Ingest(s.db, written, write, now, limits).value;
    assert after.runs == admitted.runs && after.tombstones == s.db.tombstones;
  }

  lemma StepClosesNone(s: System, step: Step, now: real, limits: Limits, id: RunId)
    requires NeverClosed(s, id)
    ensures NeverClosed(Next(s, step, now, limits), id)
  {
    match step
    case Reconciles(cv) =>
      if Reconcile(s.db, cv, now, limits).Done? {
        ReconcileSettles(s.db, cv, now, limits, id);
      }
    case StartBegins(_, cv, requested, generated) =>
      if StartTransaction(s.db, requested, generated, cv, now, limits).Done? {
        ReconcileSettles(s.db, cv, now, limits, id);
      }
    case Ingests(written, write) =>
      if Ingest(s.db, written, write, now, limits).Done? {
        IngestClosesNone(s, written, write, now, limits, id);
      }
    case Recovers(cv) =>
      if Recover(s.db, cv, now).Done? {
        FoundRun(s.db);
      }
    case _ =>
  }

  /** Over any run of steps an external run stays external and never has an end time. */
  lemma {:induction false} ExternalRunsNeverEnd(start: System, limits: Limits, trace: seq<Timed>, id: RunId)
    requires NeverClosed(start, id)
    ensures NeverClosed(After(start, limits, trace), id)
  {
    if trace != [] {
      var front, last := trace[..|trace| - 1], trace[|trace| - 1];
      ExternalRunsNeverEnd(start, limits, front, id);
      StepClosesNone(After(start, limits, front), last.step, last.now, limits, id);
    }
  }

  // --- No run stays starting or ending for ever ----------------------------

  datatype Phase = ToStart | ToEnd

  predicate InPhase(run: Run, phase: Phase) {
    match phase
    case ToStart => run.status.Starting?
    case ToEnd => run.status.Ending?
  }

  function Since(run: Run, phase: Phase): real {
    match phase
    case ToStart => run.requestedAt
    case ToEnd => run.changedAt
  }

  function Timeout(limits: Limits, phase: Phase): real {
    match phase
    case ToStart => limits.startTimeout
    case ToEnd => limits.stopTimeout
  }

  ghost predicate Waits(db: Db, id: RunId, phase: Phase) {
    id in db.runs && InPhase(db.runs[id], phase)
  }

  ghost predicate Ordered(trace: seq<Timed>) {
    forall i, j :: 0 <= i < j < |trace| ==> trace[i].now <= trace[j].now
  }

  /** A reconciliation happens in the window of this length after `x`. */
  ghost predicate ReconciledAfter(trace: seq<Timed>, x: real, interval: real) {
    exists k :: 0 <= k < |trace| && trace[k].step.Reconciles? && x < trace[k].now <= x + interval
  }

  ghost predicate ReconciledEvery(trace: seq<Timed>, interval: real) {
    trace != [] ==> forall x: real ::
      trace[0].now <= x && x + interval <= trace[|trace| - 1].now ==> ReconciledAfter(trace, x, interval)
  }

  /** A reconciliation that finds the phase overdue ends it, whatever the worker reports. */
  lemma OverdueIsClosed(db: Db, cv: Cv, now: real, limits: Limits, id: RunId, phase: Phase)
    requires AtMostOne(db) && Waits(db, id, phase) && now - Since(db.runs[id], phase) > Timeout(limits, phase)
    ensures Reconcile(db, cv, now, limits).Done? && !Waits(Reconcile(db, cv, now, limits).value, id, phase)
  {
    FindMeans(db);
    assert Ongoing(db, id);
  }

  /** A run in a phase after a step was in it before, since the same moment, or enters it now. */
  lemma PhaseStep(s: System, step: Step, now: real, limits: Limits, id: RunId, phase: Phase)
    requires Exclusive(s) && Waits(Next(s, step, now, limits).db, id, phase)
    ensures var after := Next(s, step, now, limits).db.runs[id];
      || Since(after, phase) == now
      || (Waits(s.db, id, phase) && Since(s.db.runs[id], phase) == Since(after, phase)
          && (step.Reconciles? ==> now <= Since(after, phase) + Timeout(limits, phase)))
  {
    match step
    case Reconciles(cv) =>
      if Waits(s.db, id, phase) && now - Since(s.db.runs[id], phase) > Timeout(limits, phase) {
        OverdueIsClosed(s.db, cv, now, limits, id, phase);
      }
    case StartBegins(_, cv, requested, generated) =>
      if StartTransaction(s.db, requested, generated, cv, now, limits).Done? {
        StartBeginsOne(s.db, requested, generated, cv, now, limits);
      }
    case _ =>
  }

  lemma {:induction false} NoneLate(
    start: System, limits: Limits, trace: seq<Timed>, id: RunId, phase: Phase, k: nat)
    requires Exclusive(start) && !Waits(start.db, id, phase) && Ordered(trace) && Timeout(limits, phase) >= 0.0
    requires Waits(After(start, limits, trace).db, id, phase)
    requires k < |trace| && trace[k].step.Reconciles?
    ensures var since := Since(After(start, limits, trace).db.runs[id], phase);
      trace[0].now <= since && trace[k].now <= since + Timeout(limits, phase)
  {
    var front, last := trace[..|trace| - 1], trace[|trace| - 1];
    AtMostOneInProgress(start, limits, front);
    PhaseStep(After(start, limits, front), last.step, last.now, limits, id, phase);
    var since := Since(After(start, limits, trace).db.runs[id], phase);
    if since != last.now {
      if k < |front| {
        NoneLate(start, limits, front, id, phase, k);
      } else {
        BegunInside(start, limits, front, id, phase);
      }
    }
  }

  lemma {:induction false} BegunInside(start: System, limits: Limits, trace: seq<Timed>, id: RunId, phase: Phase)
    requires Exclusive(start) && !Waits(start.db, id, phase) && Ordered(trace)
    requires Waits(After(start, limits, trace).db, id, phase)
    ensures trace != [] && trace[0].now <= Since(After(start, limits, trace).db.runs[id], phase)
  {
    if trace != [] {
      var front, last := trace[..|trace| - 1], trace[|trace| - 1];
      AtMostOneInProgress(start, limits, front);
      PhaseStep(After(start, limits, front), last.step, last.now, limits, id, phase);
      if Since(After(start, limits, trace).db.runs[id], phase) != last.now {
        BegunInside(start, limits, front, id, phase);
      }
    }
  }

  /**
   With a reconciliation in every window of a given length and a clock that
   does not go back, no run stays starting longer than the start timeout plus
   that length after its request, nor ending longer than the stop timeout plus
   that length after its latest end request, whatever the worker reports.
   */
  lemma TransitionsAreTimely(
    start: System, limits: Limits, trace: seq<Timed>, id: RunId, phase: Phase, interval: real)
    requires Exclusive(start) && !Waits(start.db, id, phase) && Ordered(trace) && Timeout(limits, phase) >= 0.0
    requires trace != [] && ReconciledEvery(trace, interval)
    requires Waits(After(start, limits, trace).db, id, phase)
    ensures trace[|trace| - 1].now
         < Since(After(start, limits, trace).db.runs[id], phase) + Timeout(limits, phase) + interval
  {
    var due := Since(After(start, limits, trace).db.runs[id], phase) + Timeout(limits, phase);
    BegunInside(start, limits, trace, id, phase);
    if due + interval <= trace[|trace| - 1].now {
      assert ReconciledAfter(trace, due, interval);
      var k :| 0 <= k < |trace| && trace[k].step.Reconciles? && due < trace[k].now <= due + interval;
      NoneLate(start, limits, trace, id, phase, k);
    }
  }
}
