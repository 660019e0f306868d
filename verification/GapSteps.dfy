/** The steps of detection and review requests keep the invariant. */
module GapSteps {
  import opened Collections
  import opened Wrappers
  import opened Plane
  import opened Coverage
  import opened States
  import opened Checksums
  import opened Tables
  import opened Records
  import opened Evolution
  import opened Workflow
  import opened Invariant
  import opened Preservation
  import opened RunInputs
  import RunSteps

  lemma InsertGap(t: Table<Gap>, newId: nat, row: Row<Gap>)
    requires LegalGaps(t) && UniqueGaps(t.rows) && newId !in t.rows && !HashTaken(t.rows, row.data.hash)
    ensures LegalGaps(t.Insert(newId, row)) && Extends(t.Insert(newId, row), t) && UniqueGaps(t.Insert(newId, row).rows)
    ensures Created(t.Insert(newId, row), newId, row)
  {
    hide GapStep, UniqueGaps, HashTaken;
    InsertKeeps(t, newId, row);
    InsertExtends(t, newId, row);
    UniqueWithOneMore(t.rows, newId, row);
  }

  lemma UniqueWithOneMore(gaps: map<nat, Row<Gap>>, newId: nat, row: Row<Gap>)
    requires UniqueGaps(gaps) && !HashTaken(gaps, row.data.hash)
    ensures UniqueGaps(gaps[newId := row])
  {
  }

  lemma UniqueWithSameHash(gaps: map<nat, Row<Gap>>, id: nat, row: Row<Gap>)
    requires UniqueGaps(gaps) && id in gaps && row.data.hash == gaps[id].data.hash
    ensures UniqueGaps(gaps[id := row])
  {
  }

  lemma AllGapsSound(s: System)
    requires Inv(s)
    ensures forall i | i in s.gaps.rows :: SoundGap(s.areas.rows, s.plans.rows, s.runs.rows, s.gaps.rows[i].data)
  {
    hide SoundRun, SoundGap, LegalAreas, LegalPlans, LegalRuns, LegalGaps, TaskOk, AuditOk;
  }

  lemma GapAddKeeps(s: System, tid: nat, newId: nat, row: Row<Gap>)
    requires Inv(s) && newId !in s.gaps.rows && !HashTaken(s.gaps.rows, row.data.hash)
    requires SoundGap(s.areas.rows, s.plans.rows, s.runs.rows, row.data)
    ensures Inv(s.(gaps := s.gaps.Insert(newId, row)).Goto(tid, Auditing(GapAdded(newId, row))))
  {
    hide Inv, SoundTables, LegalGaps, UniqueGaps, HashTaken, Extends, Grown, Created, SoundGap;
    InvParts(s);
    AllGapsSound(s);
    InsertGap(s.gaps, newId, row);
    GapsChange(s, s.gaps.Insert(newId, row));
    WriteKeeps(s, s.(gaps := s.gaps.Insert(newId, row)), tid, Auditing(GapAdded(newId, row)));
  }

  // ---------- Reviews ----------

  lemma SameSubstance(before: Row<Gap>, after: Row<Gap>, note: string)
    requires GapStep(Edit(before, after, note))
    ensures after.data == before.data.(state := after.data.state, explanation := after.data.explanation)
  {
  }

  lemma SubstanceDecides(areas: map<nat, Row<Area>>, plans: map<nat, Row<Plan>>, runs: map<nat, Row<Run>>, a: Gap,
                         b: Gap)
    requires b == a.(state := b.state, explanation := b.explanation) && SoundGap(areas, plans, runs, a)
    ensures SoundGap(areas, plans, runs, b)
  {
    hide Outcome, SoundSource, StableInputHash, FindingOf;
  }

  lemma EditGap(t: Table<Gap>, id: nat, data: Gap, note: string)
    requires LegalGaps(t) && UniqueGaps(t.rows) && id in t.rows && id in t.edits
    requires GapStep(Edit(t.rows[id], Row(t.rows[id].version + 1, data), note))
    ensures var later := t.Commit(id, data, note);
      LegalGaps(later) && Extends(later, t) && UniqueGaps(later.rows)
          && Written(later, id, t.rows[id], t.rows[id].version)
  {
    hide GapStep, UniqueGaps, LegalGaps, Extends, Written;
    CommitGap(t, id, data, note);
    CommitIsWritten(t, id, data, note, t.rows[id]);
    SameSubstance(t.rows[id], Row(t.rows[id].version + 1, data), note);
    UniqueWithSameHash(t.rows, id, Row(t.rows[id].version + 1, data));
  }

  lemma GapEditKeeps(s: System, tid: nat, id: nat, data: Gap, note: string)
    requires Inv(s) && id in s.gaps.rows && id in s.gaps.edits
    requires GapStep(Edit(s.gaps.rows[id], Row(s.gaps.rows[id].version + 1, data), note))
    ensures Inv(s.(gaps := s.gaps.Commit(id, data, note)).Goto(tid, GapWritten(id, s.gaps.rows[id])))
  {
    hide Inv, SoundTables, LegalGaps, UniqueGaps, Extends, Grown, Written, GapStep, SoundGap;
    InvParts(s);
    AllGapsSound(s);
    EditGap(s.gaps, id, data, note);
    SameSubstance(s.gaps.rows[id], Row(s.gaps.rows[id].version + 1, data), note);
    SubstanceDecides(s.areas.rows, s.plans.rows, s.runs.rows, s.gaps.rows[id].data, data);
    GapsChange(s, s.gaps.Commit(id, data, note));
    WriteKeeps(s, s.(gaps := s.gaps.Commit(id, data, note)), tid, GapWritten(id, s.gaps.rows[id]));
  }

  /**
   A review whose write matches a row replaces exactly the row that was read, so its note is appended to the latest
   text.
   */
  lemma GapMoveMatches(s: System, tid: nat)
    requires Inv(s) && tid in s.tasks && s.tasks[tid].GapMoveChecked?
    ensures var t := s.tasks[tid];
      && t.id in s.gaps.rows && t.id in s.gaps.edits
      && var data := MovedGap(s.gaps.rows[t.id], t.version, t.gapBefore.data.state, t.gapTarget,
                              Annotated(t.gapBefore.data.explanation, t.note));
         data.Some? ==>
           s.gaps.rows[t.id] == t.gapBefore
               && GapStep(Edit(t.gapBefore, Row(t.gapBefore.version + 1, data.value), t.note))
  {
    hide Inv, SoundTables;
    InvParts(s);
    InvTask(s, tid);
    SeenGap(s.gaps, s.tasks[tid].id, s.tasks[tid].gapBefore);
  }

  lemma GapWriteKnown(s: System, tid: nat)
    requires Inv(s) && tid in s.tasks && s.tasks[tid].GapWritten?
    ensures var t := s.tasks[tid]; Written(s.gaps, t.id, t.gapBefore, t.gapBefore.version)
  {
    hide Inv, Written;
    InvTask(s, tid);
  }

  lemma GapRereadOk(s: System, tid: nat)
    requires Inv(s) && tid in s.tasks && s.tasks[tid].GapWritten?
    ensures var t := s.tasks[tid];
      t.id in s.gaps.rows && Inv(s.Goto(tid, Auditing(GapChanged(t.id, t.gapBefore, s.gaps.rows[t.id]))))
  {
    hide Inv, SoundTables, Written, Described, LegalGaps;
    InvParts(s);
    GapWriteKnown(s, tid);
    var t := s.tasks[tid];
    RereadDescribes(s.gaps, t.id, t.gapBefore, t.gapBefore.version);
    AuditIsTask(s, GapChanged(t.id, t.gapBefore, s.gaps.rows[t.id]));
    hide TaskOk;
    ReadKeeps(s, tid, Auditing(GapChanged(t.id, t.gapBefore, s.gaps.rows[t.id])));
  }

  lemma GapReadOk(s: System, tid: nat, id: nat, version: nat, target: GapState, note: string)
    requires Inv(s) && id in s.gaps.rows && s.gaps.rows[id].data.state.CanTransition(target)
    ensures Inv(s.Goto(tid, GapMoveChecked(id, version, target, note, s.gaps.rows[id])))
  {
    hide Inv, SoundTables;
    InvParts(s);
    ReadKeeps(s, tid, GapMoveChecked(id, version, target, note, s.gaps.rows[id]));
  }

  // ---------- Detection ----------

  lemma AreaReadOk(s: System, tid: nat, detect: DetectRequest)
    requires Inv(s) && detect.areaId in s.areas.rows
    ensures Inv(s.Goto(tid, GapDetectArea(detect, s.areas.rows[detect.areaId])))
  {
    hide Inv, SoundTables;
    InvParts(s);
    ReadKeeps(s, tid, GapDetectArea(detect, s.areas.rows[detect.areaId]));
  }

  lemma RowsAreSeen<R>(t: Table<R>, ids: seq<nat>)
    requires t.WellKept() && forall id | id in ids :: id in t.rows
    ensures SeenAll(t, ids, RowsOf(t.rows, ids))
  {
  }

  lemma RunsReadOk(s: System, tid: nat, order: seq<nat>)
    requires Inv(s) && tid in s.tasks && s.tasks[tid].GapDetectArea?
    requires IsAnswer(order, s.tasks[tid].detect.runIds, s.runs.rows)
    ensures var t := s.tasks[tid]; Inv(s.Goto(tid, GapDetectRuns(t.detect, t.area0, order, RowsOf(s.runs.rows, order))))
  {
    hide Inv, SoundTables, Seen;
    InvParts(s);
    InvTask(s, tid);
    RowsAreSeen(s.runs, order);
    var t := s.tasks[tid];
    ReadKeeps(s, tid, GapDetectRuns(t.detect, t.area0, order, RowsOf(s.runs.rows, order)));
  }

  lemma SourcesCheckedOk(s: System, tid: nat)
    requires Inv(s) && tid in s.tasks && s.tasks[tid].GapDetectRuns?
    requires var t := s.tasks[tid];
      && |t.runs| == |UniqueIds(t.detect.runIds)| && AllIn(PlanIdsOf(t.runs), s.plans.rows)
      && CheckSources(t.detect.areaId, DataOf(t.runs), DataOf(RowsOf(s.plans.rows, PlanIdsOf(t.runs)))).None?
    ensures var t := s.tasks[tid];
      Inv(s.Goto(tid, GapDetectHashed(t.detect, t.area0, t.ids, t.runs, RowsOf(s.plans.rows, PlanIdsOf(t.runs)))))
  {
    hide Inv, SoundTables, Seen, CheckSources, UniqueIds, ValidLines, PlanIdsOf, RowsOf, DataOf, NoDuplicates;
    InvParts(s);
    InvTask(s, tid);
    var t := s.tasks[tid];
    var plans := RowsOf(s.plans.rows, PlanIdsOf(t.runs));
    AllFound(t.ids, t.detect.runIds);
    RowsAreSeen(s.plans, PlanIdsOf(t.runs));
    SourcesPass(t.detect.areaId, DataOf(t.runs), DataOf(plans));
    forall i | 0 <= i < |t.runs|
      ensures t.runs[i].data.state == Processed && plans[i].data.areaId == t.detect.areaId
    {
      assert DataOf(t.runs)[i] == t.runs[i].data && DataOf(plans)[i] == plans[i].data;
    }
    assert CheckedRuns(s, t.detect, t.area0, t.ids, t.runs, plans);
    ReadKeeps(s, tid, GapDetectHashed(t.detect, t.area0, t.ids, t.runs, plans));
  }

  lemma MissedOk(s: System, tid: nat)
    requires Inv(s) && tid in s.tasks && s.tasks[tid].GapDetectHashed?
    ensures var t := s.tasks[tid]; Inv(s.Goto(tid, GapDetectMissed(t.detect, t.area0, t.ids, t.runs, t.plans)))
  {
    hide Inv, SoundTables, CheckedRuns;
    InvTask(s, tid);
    var t := s.tasks[tid];
    ReadKeeps(s, tid, GapDetectMissed(t.detect, t.area0, t.ids, t.runs, t.plans));
  }

  /** A run checked by a detection is a sound source now, whatever has happened to it since. */
  lemma CheckedIsSound(s: System, detect: DetectRequest, area: Row<Area>, ids: seq<nat>, runs: seq<Row<Run>>,
                       plans: seq<Row<Plan>>, i: nat)
    requires Inv(s) && CheckedRuns(s, detect, area, ids, runs, plans) && i < |ids|
    ensures SoundSource(s.runs.rows, s.plans.rows, detect.areaId, ids[i])
    ensures s.runs.rows[ids[i]].data == runs[i].data.(state := s.runs.rows[ids[i]].data.state)
  {
    hide Inv, SoundTables;
    InvParts(s);
    RunSteps.AllRunsSound(s);
    SeenRun(s.runs, ids[i], runs[i]);
    SeenPlan(s.plans, PlanIdsOf(runs)[i], plans[i]);
    assert SoundRun(s.plans.rows, s.runs.rows[ids[i]].data);
  }

  lemma CheckedInputs(s: System, detect: DetectRequest, area: Row<Area>, ids: seq<nat>, runs: seq<Row<Run>>,
                      plans: seq<Row<Plan>>)
    requires Inv(s) && CheckedRuns(s, detect, area, ids, runs, plans)
    ensures forall id | id in ids :: SoundSource(s.runs.rows, s.plans.rows, detect.areaId, id)
    ensures ChecksumsOf(DataOf(runs)) == ChecksumsOf(RunsFor(s.runs.rows, ids))
    ensures TracksOf(ids, DataOf(runs)) == TracksOf(ids, RunsFor(s.runs.rows, ids))
  {
    hide Inv, ChecksumsOf, TracksOf, DataOf, RowsOf;
    forall i | 0 <= i < |ids|
      ensures SoundSource(s.runs.rows, s.plans.rows, detect.areaId, ids[i])
      ensures s.runs.rows[ids[i]].data == runs[i].data.(state := s.runs.rows[ids[i]].data.state)
    {
      CheckedIsSound(s, detect, area, ids, runs, plans, i);
    }
    assert forall id | id in ids :: id in s.runs.rows;
    var now := RunsFor(s.runs.rows, ids);
    forall i | 0 <= i < |ids|
      ensures now[i].checksum == DataOf(runs)[i].checksum
      ensures now[i].lines == DataOf(runs)[i].lines && now[i].swath == DataOf(runs)[i].swath
    {
    }
  }

  lemma DetectedIsSound(s: System, detect: DetectRequest, area: Row<Area>, ids: seq<nat>, runs: seq<Row<Run>>,
                        plans: seq<Row<Plan>>, result: CoverageResult)
    requires Inv(s) && CheckedRuns(s, detect, area, ids, runs, plans)
    requires Outcome(area.data.values.boundary, TracksOf(ids, DataOf(runs)), ChosenResolution(detect, area.data))
      == Ok(result)
    ensures SoundGap(s.areas.rows, s.plans.rows, s.runs.rows,
                     DetectedGap(detect, area.data, HashOf(detect, area.data, DataOf(runs)), result))
  {
    hide Inv, Outcome, UniqueIds, SoundSource, DetectionText, FindingOf, ChosenResolution, ChecksumsOf, TracksOf,
        Sorted, SeenAll;
    CheckedInputs(s, detect, area, ids, runs, plans);
    UniqueIdsAreTheSameIds(detect.runIds);
    var sources := UniqueIds(detect.runIds);
    SameMembers(ids, sources);
    assert forall id | id in sources :: SoundSource(s.runs.rows, s.plans.rows, detect.areaId, id);
    SoundSourcesExist(s.runs.rows, s.plans.rows, detect.areaId, sources);
    SoundSourcesExist(s.runs.rows, s.plans.rows, detect.areaId, ids);
    OrderDoesNotMatter(s.runs.rows, ids, sources, area.data.values.boundary, ChosenResolution(detect, area.data));
  }

  lemma SoundSourcesExist(runs: map<nat, Row<Run>>, plans: map<nat, Row<Plan>>, areaId: nat, ids: seq<nat>)
    requires forall id | id in ids :: SoundSource(runs, plans, areaId, id)
    ensures forall id | id in ids :: id in runs
  {
    forall id | id in ids
      ensures id in runs
    {
      assert SoundSource(runs, plans, areaId, id);
    }
  }

  lemma DetectKeeps(s: System, tid: nat, newId: nat)
    requires Inv(s) && tid in s.tasks && s.tasks[tid].GapDetectMissed?
    requires var t := s.tasks[tid];
      && newId !in s.gaps.rows && |t.ids| == |t.runs|
      && !HashTaken(s.gaps.rows, HashOf(t.detect, t.area0.data, DataOf(t.runs)))
      && Outcome(t.area0.data.values.boundary, TracksOf(t.ids, DataOf(t.runs)),
                 ChosenResolution(t.detect, t.area0.data)).Ok?
    ensures var t := s.tasks[tid];
      var result := Outcome(t.area0.data.values.boundary, TracksOf(t.ids, DataOf(t.runs)),
                            ChosenResolution(t.detect, t.area0.data)).value;
      var row := Row(1, DetectedGap(t.detect, t.area0.data, HashOf(t.detect, t.area0.data, DataOf(t.runs)), result));
      Inv(s.(gaps := s.gaps.Insert(newId, row)).Goto(tid, Auditing(GapAdded(newId, row))))
  {
    hide Inv, Outcome, CheckedRuns, SoundGap, UniqueIds, DetectionText, FindingOf, HashTaken, HashOf, DataOf, TracksOf,
        ChosenResolution;
    InvTask(s, tid);
    var t := s.tasks[tid];
    var result := Outcome(t.area0.data.values.boundary, TracksOf(t.ids, DataOf(t.runs)),
                          ChosenResolution(t.detect, t.area0.data)).value;
    DetectedIsSound(s, t.detect, t.area0, t.ids, t.runs, t.plans, result);
    GapAddKeeps(s, tid, newId, Row(1,
            DetectedGap(t.detect, t.area0.data, HashOf(t.detect, t.area0.data, DataOf(t.runs)), result)));
  }

  lemma StepGapKeeps(s: System, tid: nat, choice: Choice)
    requires Inv(s) && tid in s.tasks
    ensures Inv(StepGap(s, tid, s.tasks[tid], choice))
  {
    hide Inv, TaskOk, AuditOk, Outcome, HashOf, HashTaken, DetectedGap, GapStep, CheckSources, UniqueIds, IsAnswer,
        Annotated;
    DoneKeeps(s, tid);
    match s.tasks[tid]
    case GapDetect(detect) =>
      if detect.areaId in s.areas.rows {
        AreaReadOk(s, tid, detect);
      }
    case GapDetectArea(detect, area) =>
      if IsAnswer(choice.order, detect.runIds, s.runs.rows) {
        RunsReadOk(s, tid, choice.order);
      }
    case GapDetectRuns(detect, area, ids, runs) =>
      if |runs| == |UniqueIds(detect.runIds)| && AllIn(PlanIdsOf(runs), s.plans.rows) {
        if CheckSources(detect.areaId, DataOf(runs), DataOf(RowsOf(s.plans.rows, PlanIdsOf(runs)))).None? {
          SourcesCheckedOk(s, tid);
        }
      }
    case GapDetectHashed(detect, area, ids, runs, plans) =>
      MissedOk(s, tid);
    case GapDetectMissed(detect, area, ids, runs, plans) =>
      if |ids| == |runs| && choice.newId !in s.gaps.rows
          && !HashTaken(s.gaps.rows, HashOf(detect, area.data, DataOf(runs))) {
        if Outcome(area.data.values.boundary, TracksOf(ids, DataOf(runs)), ChosenResolution(detect, area.data)).Ok? {
          DetectKeeps(s, tid, choice.newId);
        }
      }
    case GapMove(id, version, target, note) =>
      if id in s.gaps.rows && CheckGapMove(s.gaps.rows[id].data, target).None? {
        GapReadOk(s, tid, id, version, target, note);
      }
    case GapMoveChecked(id, version, target, note, before) =>
      GapMoveMatches(s, tid);
      var data := MovedGap(s.gaps.rows[id], version, before.data.state, target,
                           Annotated(before.data.explanation, note));
      if data.Some? {
        GapEditKeeps(s, tid, id, data.value, note);
      }
    case GapWritten(id, before) =>
      GapRereadOk(s, tid);
    case _ =>
  }
}
