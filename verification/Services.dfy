/**
 The services over their repositories. Each method does the source's statements in order, updates the stored rows in
 place, and leaves the system as its request function says, whatever other tasks are waiting half way.
 */
module Services {
  import opened Collections
  import opened Wrappers
  import opened Plane
  import opened Coverage
  import opened States
  import opened Checksums
  import opened Tables
  import opened Records
  import opened Workflow
  import opened Invariant
  import opened Preservation
  import opened Overtaking
  import opened Requests
  import opened Repositories
  import LoneUpdates
  import LoneInserts
  import RunSteps
  import Reachability

  /** A row, and whether it was there before. */
  datatype Idempotent<T> = Idempotent(row: Row<T>, existing: bool)

  function AreaAnswer(r: Result<Row<Area>, ServiceError>): Reply {
    match r case Ok(row) => AreaReply(row) case Err(e) => Failed(e)
  }

  function PlanAnswer(r: Result<Row<Plan>, ServiceError>): Reply {
    match r case Ok(row) => PlanReply(row) case Err(e) => Failed(e)
  }

  function RunAnswer(r: Result<Row<Run>, ServiceError>): Reply {
    match r case Ok(row) => RunReply(row, false) case Err(e) => Failed(e)
  }

  function GapAnswer(r: Result<Row<Gap>, ServiceError>): Reply {
    match r case Ok(row) => GapReply(row, false) case Err(e) => Failed(e)
  }

  function ImportAnswer(r: Result<Idempotent<Run>, ServiceError>): Reply {
    match r case Ok(found) => RunReply(found.row, found.existing) case Err(e) => Failed(e)
  }

  function DetectAnswer(r: Result<Idempotent<Gap>, ServiceError>): Reply {
    match r case Ok(found) => GapReply(found.row, found.existing) case Err(e) => Failed(e)
  }

  /** The tables, the audit log, and the system state they hold: the rows with their histories and the waiting tasks. */
  class Database {
    const areas: SurveyAreaRepository
    const plans: TransectPlanRepository
    const runs: SonarRunRepository
    const gaps: CoverageGapRepository
    var audits: seq<Audit>
    ghost var state: System

    /** The rows and audit events stored are those of the state. */
    ghost predicate Stores()
      reads this, areas, plans, runs, gaps
    {
      && areas.Valid() && plans.Valid() && runs.Valid() && gaps.Valid()
      && state.areas.rows == areas.rows && state.plans.rows == plans.rows
      && state.runs.rows == runs.rows && state.gaps.rows == gaps.rows
      && state.audits == audits
    }

    ghost predicate Valid()
      reads this, areas, plans, runs, gaps
    {
      Stores() && Inv(state) && TablesComplete(state)
    }

    constructor ()
      ensures Valid() && state == Start()
    {
      areas := new SurveyAreaRepository();
      plans := new TransectPlanRepository();
      runs := new SonarRunRepository();
      gaps := new CoverageGapRepository();
      audits, state := [], Start();
      new;
      hide Inv;
      Reachability.StartIsSound();
    }

    method Record(audit: Audit)
      modifies this`audits
      ensures audits == old(audits) + [audit]
    {
      audits := audits + [audit];
    }
  }

  // ---------- Requests keep the invariant, because undisturbed tasks do ----------

  ghost predicate Sound(s: System) {
    TablesComplete(s) && Inv(s)
  }

  lemma Untold(done: Answered, tid: nat)
    requires TablesComplete(done.state) && Inv(done.Told(tid))
    ensures Sound(done.state)
  {
    hide Inv;
    AnswersDoNotMatter(done.Told(tid), done.state);
  }

  lemma UpdatesKeepInv(s: System, id: nat, version: nat)
    requires Inv(s) && TablesComplete(s)
    ensures forall values :: Sound(AfterAreaUpdate(s, id, version, values).state)
    ensures forall content :: Sound(AfterPlanUpdate(s, id, version, content).state)
    ensures forall target :: Sound(AfterPlanLock(s, id, version, target).state)
    ensures forall target, reason :: Sound(AfterRunMove(s, id, version, target, reason).state)
    ensures forall target, note :: Sound(AfterGapMove(s, id, version, target, note).state)
  {
    hide Inv, From, Alone, AfterAreaUpdate, AfterPlanUpdate, AfterPlanLock, AfterRunMove, AfterGapMove;
    var tid := SomeNewTask(s.tasks);
    var c := Choice(0, []);
    forall values
      ensures Sound(AfterAreaUpdate(s, id, version, values).state)
    {
      LoneUpdates.AreaUpdateAlone(s, tid, id, version, values, c);
      FromKeeps(s, Alone(tid, AreaUpdate(id, version, values), c, 4));
      Untold(AfterAreaUpdate(s, id, version, values), tid);
    }
    forall content
      ensures Sound(AfterPlanUpdate(s, id, version, content).state)
    {
      LoneUpdates.PlanUpdateAlone(s, tid, id, version, content, c);
      FromKeeps(s, Alone(tid, PlanUpdate(id, version, content), c, 4));
      Untold(AfterPlanUpdate(s, id, version, content), tid);
    }
    forall target
      ensures Sound(AfterPlanLock(s, id, version, target).state)
    {
      LoneUpdates.PlanLockAlone(s, tid, id, version, target, c);
      FromKeeps(s, Alone(tid, PlanLock(id, version, target), c, 4));
      Untold(AfterPlanLock(s, id, version, target), tid);
    }
    forall target, reason
      ensures Sound(AfterRunMove(s, id, version, target, reason).state)
    {
      LoneUpdates.RunMoveAlone(s, tid, id, version, target, reason, c);
      FromKeeps(s, Alone(tid, RunMove(id, version, target, reason), c, 4));
      Untold(AfterRunMove(s, id, version, target, reason), tid);
    }
    forall target, note
      ensures Sound(AfterGapMove(s, id, version, target, note).state)
    {
      LoneUpdates.GapMoveAlone(s, tid, id, version, target, note, c);
      FromKeeps(s, Alone(tid, GapMove(id, version, target, note), c, 4));
      Untold(AfterGapMove(s, id, version, target, note), tid);
    }
  }

  // ---------- Services ----------

  /** The columns of a gap that come out of a calculation. */
  predicate Shows(finding: Finding, r: CoverageResult) {
    && finding.gap == r.gap && finding.recommended == r.recommended
    && finding.coverageRatio == r.coverageRatio && finding.overlapRatio == r.overlapRatio
    && finding.gapRatio == r.gapRatio
    && finding.area == r.area * r.gapRatio
    && (finding.severity == Critical <==> r.gapRatio >= 0.12) && (finding.severity == Minor <==> r.gapRatio < 0.05)
  }

  class SurveyAreaService {
    const db: Database

    constructor (db: Database)
      ensures this.db == db
    {
      this.db := db;
    }

    method Update(id: nat, version: nat, values: AreaValues) returns (r: Result<Row<Area>, ServiceError>)
      requires db.Valid()
      modifies db`audits, db`state, db.areas`rows
      ensures db.Valid()
      ensures Answered(AreaAnswer(r), db.state) == AfterAreaUpdate(old(db.state), id, version, values)
    {
      hide Inv, ValidBoundary;
      var found := db.areas.Get(id);
      if found.Err? {
        return found;
      }
      var before := found.value;
      if before.data.values.status == AreaArchived {
        return Err(AreaClosed);
      }
      if !ValidBoundary(values.boundary) {
        return Err(AreaGeometryInvalid);
      }
      var updated := db.areas.Update(id, version, values);
      if updated.Err? {
        return updated;
      }
      db.Record(AreaChanged(id, before, updated.value, version));
      UpdatesKeepInv(db.state, id, version);
      db.state := AfterAreaUpdate(db.state, id, version, values).state;
      r := updated;
    }
  }

  class TransectPlanService {
    const db: Database

    constructor (db: Database)
      ensures this.db == db
    {
      this.db := db;
    }

    method Update(id: nat, version: nat, content: PlanContent) returns (r: Result<Row<Plan>, ServiceError>)
      requires db.Valid()
      modifies db`audits, db`state, db.plans`rows
      ensures db.Valid()
      ensures Answered(PlanAnswer(r), db.state) == AfterPlanUpdate(old(db.state), id, version, content)
    {
      hide Inv, ValidLines;
      var found := db.plans.Get(id);
      if found.Err? {
        return found;
      }
      var before := found.value;
      if before.data.state != PlanDraft {
        return Err(PlanNotDraft);
      }
      if !ValidLines(content.lines) {
        return Err(LinesInvalid);
      }
      var updated := db.plans.Update(id, version, content);
      if updated.Err? {
        return updated;
      }
      db.Record(PlanChanged(id, before, updated.value, version));
      UpdatesKeepInv(db.state, id, version);
      db.state := AfterPlanUpdate(db.state, id, version, content).state;
      r := updated;
    }

    method Lock(id: nat, version: nat, target: PlanState) returns (r: Result<Row<Plan>, ServiceError>)
      requires db.Valid()
      modifies db`audits, db`state, db.plans`rows
      ensures db.Valid()
      ensures Answered(PlanAnswer(r), db.state) == AfterPlanLock(old(db.state), id, version, target)
    {
      hide Inv;
      var found := db.plans.Get(id);
      if found.Err? {
        return found;
      }
      var before := found.value;
      if before.data.state != PlanDraft || target != PlanLocked {
        return Err(PlanNotDraft);
      }
      var updated := db.plans.Transition(id, version, PlanDraft, PlanLocked);
      if updated.Err? {
        return updated;
      }
      db.Record(PlanChanged(id, before, updated.value, version));
      UpdatesKeepInv(db.state, id, version);
      db.state := AfterPlanLock(db.state, id, version, target).state;
      r := updated;
    }

    method Copy(id: nat) returns (r: Result<Row<Plan>, ServiceError>)
      requires db.Valid()
      modifies db`audits, db`state, db.plans
      ensures db.Valid()
      ensures Answered(PlanAnswer(r), db.state) == AfterPlanCopy(old(db.state), id, old(db.plans.nextId))
    {
      hide Inv;
      var found := db.plans.Get(id);
      if found.Err? {
        return found;
      }
      var newId, copy := db.plans.Copy(found.value);
      db.Record(PlanAdded(newId, copy));
      var tid := SomeNewTask(db.state.tasks);
      LoneInserts.PlanCopyAlone(db.state, tid, id, Choice(newId, []));
      FromKeeps(db.state, Alone(tid, PlanCopy(id), Choice(newId, []), 3));
      Untold(AfterPlanCopy(db.state, id, newId), tid);
      db.state := AfterPlanCopy(db.state, id, newId).state;
      r := Ok(copy);
    }
  }

  class SonarRunService {
    const db: Database

    constructor (db: Database)
      ensures this.db == db
    {
      this.db := db;
    }

    method Import(request: ImportRequest) returns (r: Result<Idempotent<Run>, ServiceError>)
      requires db.Valid() && request.source.swath > 0.0
      modifies db`audits, db`state, db.runs
      ensures db.Valid()
      ensures Answered(ImportAnswer(r), db.state) == AfterImport(old(db.state), request, old(db.runs.nextId))
      ensures r.Ok? && !r.value.existing ==>
        && old(db.runs.nextId) in db.runs.rows && db.runs.rows[old(db.runs.nextId)] == r.value.row
        && r.value.row == Row(1, Run(request.source.planId, request.code, request.lines, request.source.swath,
                                     request.quality, Imported, Payload(request.source)))
    {
      hide Inv, ValidLines, Payload, ChecksumTaken, RunTaken, From, Alone, Below;
      var plan := db.plans.Get(request.source.planId);
      if plan.Err? {
        return Err(plan.error);
      }
      if plan.value.data.state != PlanLocked {
        return Err(PlanNotLocked);
      }
      if !ValidLines(request.lines) {
        return Err(LinesInvalid);
      }
      if request.source.endedAt <= request.source.startedAt {
        return Err(RunTimeInvalid);
      }
      var existing := db.runs.ByChecksum(Payload(request.source));
      if existing.Ok? {
        ChecksumsAreUnique(db.state);
        return Ok(Idempotent(existing.value, true));
      }
      var run := Run(request.source.planId, request.code, request.lines, request.source.swath, request.quality,
                     Imported, Payload(request.source));
      var created := db.runs.Create(run);
      if created.Err? {
        return Err(created.error);
      }
      var row := Row(1, run);
      db.Record(RunAdded(created.value, row));
      r := Ok(Idempotent(row, false));
      var tid := SomeNewTask(db.state.tasks);
      var c := Choice(created.value, []);
      LoneInserts.ImportAlone(db.state, tid, request, c);
      FromKeeps(db.state, Alone(tid, RunImport(request), c, 4));
      Untold(AfterImport(db.state, request, created.value), tid);
      db.state := AfterImport(db.state, request, created.value).state;
    }

    method Transition(id: nat, version: nat, target: RunState, reason: string)
        returns (r: Result<Row<Run>, ServiceError>)
      requires db.Valid()
      modifies db`audits, db`state, db.runs`rows
      ensures db.Valid()
      ensures Answered(RunAnswer(r), db.state) == AfterRunMove(old(db.state), id, version, target, reason)
      ensures r.Ok? ==>
        && id in old(db.runs.rows)
        && r.value == Row(version + 1, old(db.runs.rows)[id].data.(state := target))
    {
      hide Inv, TablesComplete;
      var found := db.runs.Get(id);
      if found.Err? {
        return found;
      }
      var before := found.value;
      if !before.data.state.CanTransition(target) {
        return Err(RunTransitionInvalid);
      }
      if target == QualityChecked && before.data.quality == Invalid {
        return Err(NavigationInvalid);
      }
      if target == Rejected && EncodedLength(reason) < 4 {
        return Err(ReasonRequired);
      }
      var updated := db.runs.Transition(id, version, before.data.state, target);
      if updated.Err? {
        return updated;
      }
      db.Record(RunChanged(id, before, updated.value));
      UpdatesKeepInv(db.state, id, version);
      db.state := AfterRunMove(db.state, id, version, target, reason).state;
      r := updated;
    }
  }

  class CoverageGapService {
    const db: Database

    constructor (db: Database)
      ensures this.db == db
    {
      this.db := db;
    }

    method Transition(id: nat, version: nat, target: GapState, note: string) returns (r: Result<Row<Gap>, ServiceError>)
      requires db.Valid()
      modifies db`audits, db`state, db.gaps`rows
      ensures db.Valid()
      ensures Answered(GapAnswer(r), db.state) == AfterGapMove(old(db.state), id, version, target, note)
      ensures r.Ok? ==>
        id in old(db.gaps.rows) &&
        var gap := old(db.gaps.rows)[id].data;
        r.value == Row(version + 1, gap.(state := target, explanation := gap.explanation + " 复核记录：" + note))
    {
      hide Inv, TablesComplete;
      var found := db.gaps.Get(id);
      if found.Err? {
        return found;
      }
      var before := found.value;
      if !before.data.state.CanTransition(target) {
        return Err(GapTransitionInvalid);
      }
      var explanation := before.data.explanation + " 复核记录：" + note;
      var updated := db.gaps.Transition(id, version, before.data.state, target, explanation);
      if updated.Err? {
        return updated;
      }
      db.Record(GapChanged(id, before, updated.value));
      UpdatesKeepInv(db.state, id, version);
      db.state := AfterGapMove(db.state, id, version, target, note).state;
      r := updated;
    }

    /** The rows come back in an order of the database's choice; the new gap gets the next id. */
    method Detect(detect: DetectRequest) returns (r: Result<Idempotent<Gap>, ServiceError>, ghost choice: Choice)
      requires db.Valid()
      modifies db`audits, db`state, db.gaps
      ensures db.Valid()
      ensures IsAnswer(choice.order, detect.runIds, old(db.state.runs.rows)) && choice.newId == old(db.gaps.nextId)
      ensures Answered(DetectAnswer(r), db.state) == AfterDetect(old(db.state), detect, choice)
    {
      hide Inv, AfterCheckedDetection, CheckSources, ChecksumsOf, TracksOf, UniqueIds, From, Alone, DataOf, RowsOf,
          PlanIdsOf;
      var anyOrder := AnAnswer(detect.runIds, db.runs.rows);
      choice := Choice(db.gaps.nextId, anyOrder);
      if !(8 <= |detect.key| <= 120) {
        r := Err(KeyRequired);
        return;
      }
      var area := db.areas.Get(detect.areaId);
      if area.Err? {
        r := Err(NotFound);
        return;
      }
      var order, runs := db.runs.ByIDs(detect.runIds);
      choice := Choice(db.gaps.nextId, order);
      var unique := UniqueIDs(detect.runIds);
      if |runs| != |unique| {
        r := Err(RunSetIncomplete);
        return;
      }
      PlansExist(db.state, order);
      var problem, checksums, tracks := Inputs(detect.areaId, order, runs);
      if problem.Some? {
        r := Err(problem.value);
        return;
      }
      var tid := SomeNewTask(db.state.tasks);
      ghost var before := db.state;
      InvParts(db.state);
      r := Calculate(detect, area.value.data, order, DataOf(runs), checksums, tracks);
      LoneInserts.DetectAlone(before, tid, detect, choice);
      FromKeeps(before, Alone(tid, GapDetect(detect), choice, 6));
      Untold(AfterDetect(before, detect, choice), tid);
    }

    /** The second half of a detection: look the input hash up, and calculate only when it is new. */
    method Calculate(detect: DetectRequest, area: Area, ids: seq<nat>, ghost runs: seq<Run>, checksums: seq<string>,
                     tracks: seq<Track>)
      returns (r: Result<Idempotent<Gap>, ServiceError>)
      requires db.Stores() && TablesComplete(db.state) && UniqueGaps(db.gaps.rows)
      requires |ids| == |runs| && checksums == ChecksumsOf(runs) && tracks == TracksOf(ids, runs)
      modifies db`audits, db`state, db.gaps
      ensures db.Stores() && TablesComplete(db.state)
      ensures Answered(DetectAnswer(r), db.state)
           == AfterCheckedDetection(old(db.state), detect, area, ids, runs, old(db.gaps.nextId))
      ensures r.Ok? && !r.value.existing ==>
        var resolution := if detect.resolution == 0.0 then area.values.resolution else detect.resolution;
        var outcome := Outcome(area.values.boundary, tracks, resolution);
        outcome.Ok? && r.value.row.version == 1 && Shows(r.value.row.data.finding, outcome.value)
    {
      hide Below, ChecksumsOf, TracksOf, UniqueIds, Outcome, Sorted, NoDuplicates, Fixed1, Decimal;
      var resolution := detect.resolution;
      if resolution == 0.0 {
        resolution := area.values.resolution;
      }
      var hash := StableInputHash(detect.areaId, area.values.coordinateSystem, detect.algorithm, checksums, resolution);
      var existing := db.gaps.ByInputHash(hash);
      if existing.Ok? {
        HashesAreUnique(db.gaps.rows);
        return Ok(Idempotent(existing.value, true));
      }
      var result := CalculateCoverage(area.values.boundary, tracks, resolution);
      if result.Err? {
        return Err(CoverageInvalid);
      }
      var unique := UniqueIDs(detect.runIds);
      var found := result.value;
      var finding := Finding(found.gap, found.area * found.gapRatio, found.gapRatio, SeverityForRatio(found.gapRatio),
                             found.recommended, found.coverageRatio, found.overlapRatio);
      var explanation := "以 " + Fixed1(resolution) + " 米网格分析 " + Decimal(found.sampleCells) + " 个单元；过滤 "
        + Decimal(found.filteredFragments) + " 个低于分辨率阈值的碎片。补测线仅供人工规划参考。";
      assert finding == FindingOf(found);
      assert explanation == DetectionText(resolution, found);
      var gap := Gap(detect.areaId, unique, finding, detect.algorithm, hash, Detected, explanation,
                     area.values.boundary);
      var created := db.gaps.Create(gap);
      if created.Ok? {
        var row := Row(1, gap);
        db.Record(GapAdded(created.value, row));
        db.state := db.state.(gaps := db.state.gaps.Insert(created.value, row), audits := db.audits);
        r := Ok(Idempotent(row, false));
      } else {
        r := Err(Duplicate);
      }
    }

    /** The ids without repetitions, by a set of the ids seen so far. */
    static method UniqueIDs(values: seq<nat>) returns (result: seq<nat>)
      ensures result == UniqueIds(values)
      ensures NoDuplicates(result) && forall id :: id in result <==> id in values
    {
      result := [];
      var seen: set<nat> := {};
      for i := 0 to |values|
        invariant forall id :: id in seen <==> id in result
        invariant result == UniqueIds(values[..i])
      {
        assert values[..i + 1][..i] == values[..i];
        if values[i] !in seen {
          seen := seen + {values[i]};
          result := result + [values[i]];
        }
      }
      assert values[..|values|] == values;
      UniqueIdsAreTheSameIds(values);
    }

    /** The checks of a detection, run by run, and what it takes from each. */
    method Inputs(areaId: nat, ids: seq<nat>, runs: seq<Row<Run>>)
      returns (problem: Option<ServiceError>, checksums: seq<string>, tracks: seq<Track>)
      requires |ids| == |runs| && forall id | id in PlanIdsOf(runs) :: id in db.plans.rows
      ensures problem == CheckSources(areaId, DataOf(runs), DataOf(RowsOf(db.plans.rows, PlanIdsOf(runs))))
      ensures problem.None? ==> checksums == ChecksumsOf(DataOf(runs)) && tracks == TracksOf(ids, DataOf(runs))
    {
      hide ValidLines, CheckSources, ChecksumsOf, TracksOf, DataOf, RowsOf, PlanIdsOf;
      checksums, tracks := [], [];
      ghost var all := DataOf(runs);
      ghost var plans := DataOf(RowsOf(db.plans.rows, PlanIdsOf(runs)));
      NoSources(areaId, ids, all, plans);
      for i := 0 to |runs|
        invariant CheckSources(areaId, all[..i], plans[..i]).None?
        invariant checksums == ChecksumsOf(all[..i])
        invariant tracks == TracksOf(ids[..i], all[..i])
      {
        OneMoreSource(areaId, ids, all, plans, i);
        var run := runs[i].data;
        assert PlanIdsOf(runs)[i] == run.planId;
        var plan := db.plans.rows[run.planId].data;
        if plan.areaId != areaId {
          FirstProblem(areaId, all, plans, i + 1);
          return Some(RunAreaMismatch), [], [];
        }
        if run.state != Processed {
          FirstProblem(areaId, all, plans, i + 1);
          return Some(RunNotProcessed), [], [];
        }
        if !ValidLines(run.lines) {
          FirstProblem(areaId, all, plans, i + 1);
          return Some(LinesInvalid), [], [];
        }
        checksums := checksums + [run.checksum];
        tracks := tracks + [Track(ids[i], run.lines, run.swath)];
      }
      assert all[..|all|] == all && plans[..|plans|] == plans && ids[..|ids|] == ids;
      problem := None;
    }
  }

  lemma {:induction false} AnAnswer<R>(wanted: seq<nat>, rows: map<nat, Row<R>>) returns (order: seq<nat>)
    ensures IsAnswer(order, wanted, rows)
  {
    order := [];
    if wanted != [] {
      var last := |wanted| - 1;
      order := AnAnswer(wanted[..last], rows);
      assert wanted == wanted[..last] + [wanted[last]];
      if wanted[last] in rows && wanted[last] !in order {
        order := order + [wanted[last]];
      }
    }
  }

  lemma ChecksumsAreUnique(s: System)
    requires Inv(s)
    ensures forall id | id in s.runs.rows ::
      var checksum := s.runs.rows[id].data.checksum;
      ChecksumTaken(s.runs.rows, checksum) && RunWith(s.runs.rows, checksum) == s.runs.rows[id]
  {
    hide Inv, ChecksumTaken, RunWith, UniqueRuns;
    InvParts(s);
    forall id | id in s.runs.rows
      ensures var checksum := s.runs.rows[id].data.checksum;
        ChecksumTaken(s.runs.rows, checksum) && RunWith(s.runs.rows, checksum) == s.runs.rows[id]
    {
      OnlyRunWith(s.runs.rows, id);
    }
  }

  lemma HashesAreUnique(gaps: map<nat, Row<Gap>>)
    requires UniqueGaps(gaps)
    ensures forall id | id in gaps ::
      HashTaken(gaps, gaps[id].data.hash) && GapWith(gaps, gaps[id].data.hash) == gaps[id]
  {
    hide HashTaken, GapWith, UniqueGaps;
    forall id | id in gaps
      ensures HashTaken(gaps, gaps[id].data.hash) && GapWith(gaps, gaps[id].data.hash) == gaps[id]
    {
      OnlyGapWith(gaps, id);
    }
  }

  lemma PlansExist(s: System, order: seq<nat>)
    requires Inv(s) && forall id | id in order :: id in s.runs.rows
    ensures AllIn(PlanIdsOf(RowsOf(s.runs.rows, order)), s.plans.rows)
  {
    hide Inv;
    RunSteps.AllRunsSound(s);
    var runs := RowsOf(s.runs.rows, order);
    forall i | 0 <= i < |order|
      ensures PlanIdsOf(runs)[i] in s.plans.rows
    {
      assert SoundRun(s.plans.rows, s.runs.rows[order[i]].data);
    }
  }

  lemma NoSources(areaId: nat, ids: seq<nat>, runs: seq<Run>, plans: seq<Plan>)
    requires |ids| == |runs| == |plans|
    ensures CheckSources(areaId, runs[..0], plans[..0]).None? && ChecksumsOf(runs[..0]) == []
      && TracksOf(ids[..0], runs[..0]) == []
  {
  }

  lemma OneMoreSource(areaId: nat, ids: seq<nat>, runs: seq<Run>, plans: seq<Plan>, i: nat)
    requires |ids| == |runs| == |plans| && i < |runs|
    ensures ChecksumsOf(runs[..i + 1]) == ChecksumsOf(runs[..i]) + [runs[i].checksum]
    ensures TracksOf(ids[..i + 1], runs[..i + 1])
      == TracksOf(ids[..i], runs[..i]) + [Track(ids[i], runs[i].lines, runs[i].swath)]
    ensures CheckSources(areaId, runs[..i], plans[..i]).None? ==>
      CheckSources(areaId, runs[..i + 1], plans[..i + 1]) ==
        if plans[i].areaId != areaId then Some(RunAreaMismatch)
        else if runs[i].state != Processed then Some(RunNotProcessed)
        else if !ValidLines(runs[i].lines) then Some(LinesInvalid)
        else None
  {
    hide ValidLines;
    assert runs[..i + 1][..i] == runs[..i] && plans[..i + 1][..i] == plans[..i] && ids[..i + 1][..i] == ids[..i];
  }

  /** The first problem found is the answer, whatever the later runs are like. */
  lemma {:induction false} FirstProblem(areaId: nat, runs: seq<Run>, plans: seq<Plan>, n: nat)
    requires |runs| == |plans| && n <= |runs| && CheckSources(areaId, runs[..n], plans[..n]).Some?
    ensures CheckSources(areaId, runs, plans) == CheckSources(areaId, runs[..n], plans[..n])
  {
    if n < |runs| {
      var last := |runs| - 1;
      assert runs[..last][..n] == runs[..n] && plans[..last][..n] == plans[..n];
      FirstProblem(areaId, runs[..last], plans[..last], n);
    } else {
      assert runs[..n] == runs && plans[..n] == plans;
    }
  }
}
