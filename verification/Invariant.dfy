/** What holds in every reachable state of the system, however its tasks interleave. */
module Invariant {
  import opened Collections
  import opened Wrappers
  import opened Plane
  import opened Coverage
  import opened States
  import opened Checksums
  import opened Tables
  import opened Records
  import opened Evolution
  import opened Workflow

  // ---------- Rows ----------

  ghost predicate UniqueRuns(runs: map<nat, Row<Run>>) {
    forall i, j | i in runs && j in runs && i != j ::
      runs[i].data.code != runs[j].data.code && runs[i].data.checksum != runs[j].data.checksum
  }

  ghost predicate UniqueGaps(gaps: map<nat, Row<Gap>>) {
    forall i, j | i in gaps && j in gaps && i != j :: gaps[i].data.hash != gaps[j].data.hash
  }

  ghost predicate UniqueAreas(areas: map<nat, Row<Area>>) {
    forall i, j | i in areas && j in areas && i != j :: areas[i].data.code != areas[j].data.code
  }

  /** The plan exists and is locked. */
  ghost predicate OnLockedPlan(plans: map<nat, Row<Plan>>, planId: nat) {
    planId in plans && plans[planId].data.state == PlanLocked
  }

  /** A run sits on a locked plan; past its quality check its navigation is not invalid. */
  ghost predicate SoundRun(plans: map<nat, Row<Plan>>, run: Run) {
    && OnLockedPlan(plans, run.planId)
    && (run.state !in {Imported, Rejected} ==> run.quality != Invalid)
  }

  /** A run that a gap of this area may rest on. */
  ghost predicate SoundSource(runs: map<nat, Row<Run>>, plans: map<nat, Row<Plan>>, areaId: nat, id: nat) {
    && id in runs
    && runs[id].data.state in {Processed, Superseded}
    && runs[id].data.quality != Invalid
    && OnLockedPlan(plans, runs[id].data.planId)
    && plans[runs[id].data.planId].data.areaId == areaId
  }

  function RunsFor(runs: map<nat, Row<Run>>, ids: seq<nat>): (r: seq<Run>)
    requires forall id | id in ids :: id in runs
    ensures |r| == |ids|
    ensures forall i | 0 <= i < |ids| :: r[i] == runs[ids[i]].data
  {
    DataOf(RowsOf(runs, ids))
  }

  /** The stored finding is what the calculation gives for the boundary of the time and the stored runs. */
  ghost predicate Recomputes(runs: map<nat, Row<Run>>, gap: Gap, boundary: Polygon)
    requires forall id | id in gap.sourceRuns :: id in runs
  {
    var outcome := Outcome(boundary, TracksOf(gap.sourceRuns, RunsFor(runs, gap.sourceRuns)), gap.hash.resolution);
    outcome.Ok? && gap.finding == FindingOf(outcome.value)
  }

  /** The stored hash is that of the gap's own area, algorithm and runs. */
  ghost predicate HashesItsRuns(runs: map<nat, Row<Run>>, gap: Gap)
    requires forall id | id in gap.sourceRuns :: id in runs
  {
    gap.hash == StableInputHash(gap.areaId, gap.hash.coordinateSystem, gap.algorithm,
                                ChecksumsOf(RunsFor(runs, gap.sourceRuns)), gap.hash.resolution)
  }

  ghost predicate SoundGap(areas: map<nat, Row<Area>>, plans: map<nat, Row<Plan>>, runs: map<nat, Row<Run>>, gap: Gap) {
    && gap.areaId in areas
    && NoDuplicates(gap.sourceRuns)
    && (forall id | id in gap.sourceRuns :: SoundSource(runs, plans, gap.areaId, id))
    && HashesItsRuns(runs, gap)
    && Recomputes(runs, gap, gap.boundary)
  }

  /** The tables: legal histories, unique keys, and references that point at what they should. */
  ghost predicate SoundTables(s: System) {
    && LegalAreas(s.areas) && LegalPlans(s.plans) && LegalRuns(s.runs) && LegalGaps(s.gaps)
    && UniqueAreas(s.areas.rows) && UniqueRuns(s.runs.rows) && UniqueGaps(s.gaps.rows)
    && (forall id | id in s.plans.rows :: s.plans.rows[id].data.areaId in s.areas.rows)
    && (forall id | id in s.runs.rows :: SoundRun(s.plans.rows, s.runs.rows[id].data))
    && (forall id | id in s.gaps.rows :: SoundGap(s.areas.rows, s.plans.rows, s.runs.rows, s.gaps.rows[id].data))
  }

  // ---------- Tasks and audit events ----------

  /** An update that expected this version has been committed. */
  ghost predicate Wrote<R>(t: Table<R>, id: nat, version: nat) {
    id in t.rows && id in t.edits && exists i :: 0 <= i < |t.edits[id]| && t.edits[id][i].before.version == version
  }

  /** A request that read `before` has committed an update that expected this version. */
  ghost predicate Written<R>(t: Table<R>, id: nat, before: Row<R>, version: nat) {
    Seen(t, id, before) && Wrote(t, id, version) && before.version <= version
  }

  /** And it has read the row once more after its update. */
  ghost predicate Described<R>(t: Table<R>, id: nat, before: Row<R>, after: Row<R>, version: nat) {
    Written(t, id, before, version) && Seen(t, id, after) && version < after.version
  }

  /** The row read before an update is the row that the update replaced exactly when its version is the one expected. */
  lemma SnapshotIsReplacedIff<R>(t: Table<R>, id: nat, before: Row<R>, version: nat, i: nat)
    requires t.WellKept() && Seen(t, id, before) && i < |t.edits[id]| && t.edits[id][i].before.version == version
    ensures t.edits[id][i].before == before <==> before.version == version
  {
    VersionsCount(t.born[id], t.edits[id], t.rows[id]);
  }

  ghost predicate Created<R>(t: Table<R>, id: nat, row: Row<R>) {
    id in t.rows && id in t.edits && id in t.born && t.born[id] == row
  }

  /** Every audit event follows a committed write; runs and gaps are updated at the very version that was read. */
  ghost predicate AuditOk(s: System, audit: Audit) {
    match audit
    case AreaAdded(id, row) => Created(s.areas, id, row)
    case AreaChanged(id, before, after, expected) => Described(s.areas, id, before, after, expected)
    case PlanAdded(id, row) => Created(s.plans, id, row)
    case PlanChanged(id, before, after, expected) => Described(s.plans, id, before, after, expected)
    case RunAdded(id, row) => Created(s.runs, id, row)
    case RunChanged(id, before, after) => Described(s.runs, id, before, after, before.version)
    case GapAdded(id, row) => Created(s.gaps, id, row)
    case GapChanged(id, before, after) => Described(s.gaps, id, before, after, before.version)
  }

  ghost predicate SeenAll<R>(t: Table<R>, ids: seq<nat>, rows: seq<Row<R>>) {
    |ids| == |rows| && forall i | 0 <= i < |ids| :: Seen(t, ids[i], rows[i])
  }

  /** What a detection has read about its runs, before their plans are known. */
  ghost predicate ReadRuns(s: System, detect: DetectRequest, area: Row<Area>, ids: seq<nat>, runs: seq<Row<Run>>) {
    && Seen(s.areas, detect.areaId, area)
    && NoDuplicates(ids)
    && (forall id | id in ids :: id in detect.runIds)
    && SeenAll(s.runs, ids, runs)
  }

  /** What a detection knows once its checks have passed. */
  ghost predicate CheckedRuns(s: System, detect: DetectRequest, area: Row<Area>, ids: seq<nat>, runs: seq<Row<Run>>,
                              plans: seq<Row<Plan>>) {
    && ReadRuns(s, detect, area, ids, runs)
    && (forall id | id in detect.runIds :: id in ids)
    && SeenAll(s.plans, PlanIdsOf(runs), plans)
    && forall i | 0 <= i < |runs| :: runs[i].data.state == Processed && plans[i].data.areaId == detect.areaId
  }

  ghost predicate TaskOk(s: System, task: Task) {
    match task
    case AreaUpdateChecked(id, _, _, before) => Seen(s.areas, id, before) && before.data.values.status != AreaArchived
    case AreaWritten(id, before, expected) => Written(s.areas, id, before, expected)
    case PlanCreateChecked(areaId, _) => areaId in s.areas.rows && areaId in s.areas.edits
    case PlanUpdateChecked(id, _, _, before) => Seen(s.plans, id, before) && before.data.state == PlanDraft
    case PlanLockChecked(id, _, before) => Seen(s.plans, id, before) && before.data.state == PlanDraft
    case PlanWritten(id, before, expected) => Written(s.plans, id, before, expected)
    case PlanCopyRead(id, before) => Seen(s.plans, id, before)
    case RunImportChecked(request, plan) => Seen(s.plans, request.source.planId, plan)
        && CheckImport(plan.data, request).None?
    case RunImportMissed(request, plan) => Seen(s.plans, request.source.planId, plan)
        && CheckImport(plan.data, request).None?
    case RunMoveChecked(id, _, target, before) =>
      && Seen(s.runs, id, before) && before.data.state.CanTransition(target)
      && (target == QualityChecked ==> before.data.quality != Invalid)
    case RunWritten(id, before) => Written(s.runs, id, before, before.version)
    case GapDetectArea(detect, area) => Seen(s.areas, detect.areaId, area)
    case GapDetectRuns(detect, area, ids, runs) => ReadRuns(s, detect, area, ids, runs)
    case GapDetectHashed(detect, area, ids, runs, plans) => CheckedRuns(s, detect, area, ids, runs, plans)
    case GapDetectMissed(detect, area, ids, runs, plans) => CheckedRuns(s, detect, area, ids, runs, plans)
    case GapMoveChecked(id, _, target, _, before) => Seen(s.gaps, id, before) && before.data.state.CanTransition(target)
    case GapWritten(id, before) => Written(s.gaps, id, before, before.version)
    case Auditing(audit) => AuditOk(s, audit)
    case _ => true
  }

  ghost predicate Inv(s: System) {
    && SoundTables(s)
    && (forall tid | tid in s.tasks :: TaskOk(s, s.tasks[tid]))
    && (forall i | 0 <= i < |s.audits| :: AuditOk(s, s.audits[i]))
  }

  /** The parts of the invariant that most proofs need, each under its own name. */
  lemma InvParts(s: System)
    requires Inv(s)
    ensures SoundTables(s) && TablesComplete(s)
    ensures LegalAreas(s.areas) && LegalPlans(s.plans) && LegalRuns(s.runs) && LegalGaps(s.gaps)
    ensures s.areas.WellKept() && s.plans.WellKept() && s.runs.WellKept() && s.gaps.WellKept()
    ensures UniqueAreas(s.areas.rows) && UniqueRuns(s.runs.rows) && UniqueGaps(s.gaps.rows)
  {
    hide SoundGap, SoundRun, AreaStep, PlanStep, RunStep, GapStep, UniqueAreas, UniqueRuns, UniqueGaps, TaskOk, AuditOk;
  }

  lemma InvTask(s: System, tid: nat)
    requires Inv(s) && tid in s.tasks
    ensures TaskOk(s, s.tasks[tid])
  {
    hide SoundTables, TaskOk, AuditOk;
  }

  // ---------- What tasks know stays true ----------

  ghost predicate Grown(later: System, s: System) {
    && Extends(later.areas, s.areas) && Extends(later.plans, s.plans)
    && Extends(later.runs, s.runs) && Extends(later.gaps, s.gaps)
  }

  lemma SeenAllStays<R>(t: Table<R>, later: Table<R>, ids: seq<nat>, rows: seq<Row<R>>)
    requires SeenAll(t, ids, rows) && Extends(later, t)
    ensures SeenAll(later, ids, rows)
  {
    forall i | 0 <= i < |ids|
      ensures Seen(later, ids[i], rows[i])
    {
      StaysSeen(t, later, ids[i], rows[i]);
    }
  }

  lemma WrittenStays<R>(t: Table<R>, later: Table<R>, id: nat, before: Row<R>, version: nat)
    requires Written(t, id, before, version) && Extends(later, t)
    ensures Written(later, id, before, version)
  {
    StaysSeen(t, later, id, before);
    var i :| 0 <= i < |t.edits[id]| && t.edits[id][i].before.version == version;
    assert later.edits[id][i].before.version == version;
  }

  lemma DescribedStays<R>(t: Table<R>, later: Table<R>, id: nat, before: Row<R>, after: Row<R>, version: nat)
    requires Described(t, id, before, after, version) && Extends(later, t)
    ensures Described(later, id, before, after, version)
  {
    hide Written, Extends, Seen;
    WrittenStays(t, later, id, before, version);
    StaysSeen(t, later, id, after);
  }

  lemma AuditStaysOk(s: System, later: System, audit: Audit)
    requires AuditOk(s, audit) && Grown(later, s)
    ensures AuditOk(later, audit)
  {
    hide Described;
    match audit
    case AreaAdded(id, row) =>
    case AreaChanged(id, before, after, expected) => DescribedStays(s.areas, later.areas, id, before, after, expected);
    case PlanAdded(id, row) =>
    case PlanChanged(id, before, after, expected) => DescribedStays(s.plans, later.plans, id, before, after, expected);
    case RunAdded(id, row) =>
    case RunChanged(id, before, after) => DescribedStays(s.runs, later.runs, id, before, after, before.version);
    case GapAdded(id, row) =>
    case GapChanged(id, before, after) => DescribedStays(s.gaps, later.gaps, id, before, after, before.version);
  }

  lemma ReadRunsStay(s: System, later: System, detect: DetectRequest, area: Row<Area>, ids: seq<nat>,
                     runs: seq<Row<Run>>)
    requires ReadRuns(s, detect, area, ids, runs) && Grown(later, s)
    ensures ReadRuns(later, detect, area, ids, runs)
  {
    StaysSeen(s.areas, later.areas, detect.areaId, area);
    SeenAllStays(s.runs, later.runs, ids, runs);
  }

  lemma CheckedRunsStay(s: System, later: System, detect: DetectRequest, area: Row<Area>, ids: seq<nat>,
                        runs: seq<Row<Run>>, plans: seq<Row<Plan>>)
    requires CheckedRuns(s, detect, area, ids, runs, plans) && Grown(later, s)
    ensures CheckedRuns(later, detect, area, ids, runs, plans)
  {
    hide ReadRuns, Seen, Extends;
    ReadRunsStay(s, later, detect, area, ids, runs);
    SeenAllStays(s.plans, later.plans, PlanIdsOf(runs), plans);
  }

  lemma TaskStaysOk(s: System, later: System, task: Task)
    requires TaskOk(s, task) && Grown(later, s)
    ensures TaskOk(later, task)
  {
    hide Seen, Written, AuditOk, CheckImport, ReadRuns, CheckedRuns, Extends;
    match task
    case AreaUpdateChecked(id, _, _, before) => StaysSeen(s.areas, later.areas, id, before);
    case AreaWritten(id, before, expected) => WrittenStays(s.areas, later.areas, id, before, expected);
    case PlanCreateChecked(areaId, _) => StaysStored(s.areas, later.areas, areaId);
    case PlanUpdateChecked(id, _, _, before) => StaysSeen(s.plans, later.plans, id, before);
    case PlanLockChecked(id, _, before) => StaysSeen(s.plans, later.plans, id, before);
    case PlanWritten(id, before, expected) => WrittenStays(s.plans, later.plans, id, before, expected);
    case PlanCopyRead(id, before) => StaysSeen(s.plans, later.plans, id, before);
    case RunImportChecked(request, plan) => StaysSeen(s.plans, later.plans, request.source.planId, plan);
    case RunImportMissed(request, plan) => StaysSeen(s.plans, later.plans, request.source.planId, plan);
    case RunMoveChecked(id, _, target, before) => StaysSeen(s.runs, later.runs, id, before);
    case RunWritten(id, before) => WrittenStays(s.runs, later.runs, id, before, before.version);
    case GapDetectArea(detect, area) => StaysSeen(s.areas, later.areas, detect.areaId, area);
    case GapDetectRuns(detect, area, ids, runs) => ReadRunsStay(s, later, detect, area, ids, runs);
    case GapDetectHashed(detect, area, ids, runs, plans) => CheckedRunsStay(s, later, detect, area, ids, runs, plans);
    case GapDetectMissed(detect, area, ids, runs, plans) => CheckedRunsStay(s, later, detect, area, ids, runs, plans);
    case GapMoveChecked(id, _, target, _, before) => StaysSeen(s.gaps, later.gaps, id, before);
    case GapWritten(id, before) => WrittenStays(s.gaps, later.gaps, id, before, before.version);
    case Auditing(audit) => AuditStaysOk(s, later, audit);
    case _ =>
  }

  /** A step that grows the tables, changes one task at most and appends only sound audit events keeps the invariant. */
  lemma KeepsInv(s: System, later: System, tid: nat)
    requires Inv(s) && SoundTables(later) && Grown(later, s)
    requires forall t | t in later.tasks && t != tid :: t in s.tasks && later.tasks[t] == s.tasks[t]
    requires tid in later.tasks ==> TaskOk(later, later.tasks[tid])
    requires s.audits <= later.audits
    requires forall i | |s.audits| <= i < |later.audits| :: AuditOk(later, later.audits[i])
    ensures Inv(later)
  {
    forall t | t in later.tasks
      ensures TaskOk(later, later.tasks[t])
    {
      if t != tid {
        TaskStaysOk(s, later, s.tasks[t]);
      }
    }
    forall i | 0 <= i < |later.audits|
      ensures AuditOk(later, later.audits[i])
    {
      if i < |s.audits| {
        AuditStaysOk(s, later, s.audits[i]);
        assert later.audits[i] == s.audits[i];
      }
    }
  }

  // ---------- Sound rows stay sound as other rows evolve ----------

  /** Every row that was there has evolved. */
  ghost predicate PlansEvolved(later: map<nat, Row<Plan>>, plans: map<nat, Row<Plan>>) {
    forall id | id in plans :: id in later && PlanEvolves(plans[id], later[id])
  }

  ghost predicate RunsEvolved(later: map<nat, Row<Run>>, runs: map<nat, Row<Run>>) {
    forall id | id in runs :: id in later && RunEvolves(runs[id], later[id])
  }

  lemma RowsEvolve(s: System, later: System)
    requires SoundTables(s) && Grown(later, s) && LegalPlans(later.plans) && LegalRuns(later.runs)
    ensures PlansEvolved(later.plans.rows, s.plans.rows) && RunsEvolved(later.runs.rows, s.runs.rows)
  {
    forall id | id in s.plans.rows
      ensures id in later.plans.rows && PlanEvolves(s.plans.rows[id], later.plans.rows[id])
    {
      StaysSeen(s.plans, later.plans, id, s.plans.rows[id]);
      SeenPlan(later.plans, id, s.plans.rows[id]);
    }
    forall id | id in s.runs.rows
      ensures id in later.runs.rows && RunEvolves(s.runs.rows[id], later.runs.rows[id])
    {
      StaysSeen(s.runs, later.runs, id, s.runs.rows[id]);
      SeenRun(later.runs, id, s.runs.rows[id]);
    }
  }

  lemma SameInputs(runs: map<nat, Row<Run>>, later: map<nat, Row<Run>>, ids: seq<nat>)
    requires RunsEvolved(later, runs)
    requires forall id | id in ids :: id in runs
    ensures ChecksumsOf(RunsFor(later, ids)) == ChecksumsOf(RunsFor(runs, ids))
    ensures TracksOf(ids, RunsFor(later, ids)) == TracksOf(ids, RunsFor(runs, ids))
  {
    forall i | 0 <= i < |ids|
      ensures later[ids[i]].data == runs[ids[i]].data.(state := later[ids[i]].data.state)
    {
      assert RunEvolves(runs[ids[i]], later[ids[i]]);
    }
  }

  lemma SourceStaysSound(runs: map<nat, Row<Run>>, laterRuns: map<nat, Row<Run>>,
                         plans: map<nat, Row<Plan>>, laterPlans: map<nat, Row<Plan>>, areaId: nat, id: nat)
    requires SoundSource(runs, plans, areaId, id)
    requires RunsEvolved(laterRuns, runs) && PlansEvolved(laterPlans, plans)
    ensures SoundSource(laterRuns, laterPlans, areaId, id)
  {
    assert RunEvolves(runs[id], laterRuns[id]);
    var planId := runs[id].data.planId;
    assert PlanEvolves(plans[planId], laterPlans[planId]);
  }

  lemma GapStaysSound(s: System, later: System, gap: Gap)
    requires SoundGap(s.areas.rows, s.plans.rows, s.runs.rows, gap)
    requires s.areas.rows.Keys <= later.areas.rows.Keys
    requires RunsEvolved(later.runs.rows, s.runs.rows) && PlansEvolved(later.plans.rows, s.plans.rows)
    ensures SoundGap(later.areas.rows, later.plans.rows, later.runs.rows, gap)
  {
    hide RunEvolves, PlanEvolves, Outcome, StableInputHash, FindingOf;
    forall id | id in gap.sourceRuns
      ensures SoundSource(later.runs.rows, later.plans.rows, gap.areaId, id)
    {
      SourceStaysSound(s.runs.rows, later.runs.rows, s.plans.rows, later.plans.rows, gap.areaId, id);
    }
    SameInputs(s.runs.rows, later.runs.rows, gap.sourceRuns);
  }

  lemma RunStaysSound(plans: map<nat, Row<Plan>>, later: map<nat, Row<Plan>>, run: Run)
    requires SoundRun(plans, run) && PlansEvolved(later, plans)
    ensures SoundRun(later, run)
  {
    assert PlanEvolves(plans[run.planId], later[run.planId]);
  }
}
