/**
 Where everything stored comes from: each first version of a row and each write to it is what some request that has
 arrived asked for, column by column, and the request met the conditions it has to meet.
 */
module Origins {
  import opened Collections
  import opened Plane
  import opened Polygons
  import opened States
  import opened Checksums
  import opened Tables
  import opened Records
  import opened Workflow

  /** This request has arrived. */
  ghost predicate Asked(events: seq<Event>, request: Task) {
    exists tid :: Arrive(tid, request) in events
  }

  // ---------- Conditions, in full ----------

  /** At least one line, with at least two positions each. */
  ghost predicate UsableLines(lines: seq<Line>) {
    |lines| >= 1 && forall i | 0 <= i < |lines| :: |lines[i]| >= 2
  }

  /** An exterior of at least four positions, and an area above zero and of at most a thousand square kilometres. */
  ghost predicate ProperBoundary(boundary: Polygon) {
    |boundary| >= 1 && |boundary[0]| >= 4 && 0.0 < NetArea(boundary) <= 1000000000.0
  }

  ghost predicate RunMayMove(from: RunState, to: RunState) {
    (from, to) in {(Imported, QualityChecked), (QualityChecked, Processing), (Processing, Processed),
                   (Processed, Superseded),
                   (Imported, Rejected), (QualityChecked, Rejected), (Processing, Rejected)}
  }

  ghost predicate GapMayMove(from: GapState, to: GapState) {
    (from, to) in {(Detected, Reviewed), (Reviewed, Accepted), (Reviewed, FalsePositive), (Accepted, Resurveyed),
                   (FalsePositive, Closed), (Resurveyed, Closed)}
  }

  lemma TablesAreTheseEdges()
    ensures forall from: RunState, to: RunState :: from.CanTransition(to) <==> RunMayMove(from, to)
    ensures forall from: GapState, to: GapState :: from.CanTransition(to) <==> GapMayMove(from, to)
  {
  }

  /** The two checks a request passes, for every input. */
  lemma ChecksAreInFull()
    ensures forall lines :: ValidLines(lines) <==> UsableLines(lines)
    ensures forall boundary :: ValidBoundary(boundary) <==> ProperBoundary(boundary)
  {
  }

  // ---------- First versions ----------

  ghost predicate AreaAsked(events: seq<Event>, row: Row<Area>) {
    exists area ::
      && Asked(events, AreaCreate(area)) && ProperBoundary(area.values.boundary)
      && row == Row(1, Area(area.code, AreaValues(area.values.name, area.values.boundary, area.values.resolution,
                                                  area.values.coordinateSystem, AreaDraft)))
  }

  ghost predicate PlanAsked(events: seq<Event>, row: Row<Plan>) {
    exists areaId, content ::
      && Asked(events, PlanCreate(areaId, content)) && UsableLines(content.lines)
      && row == Row(1, Plan(areaId, content, PlanDraft))
  }

  /** A draft with the source's content under a marked name, one version above the source. */
  ghost predicate IsCopyOf(copy: Row<Plan>, source: Row<Plan>) {
    var content := source.data.content;
    copy == Row(source.version + 1,
                Plan(source.data.areaId,
                     PlanContent(content.name + " / 复制版本", content.lines, content.heading, content.swath,
                                 content.spacing),
                     PlanDraft))
  }

  /** A copy of a version that some plan has had. */
  ghost predicate CopyAsked(events: seq<Event>, plans: Table<Plan>, row: Row<Plan>) {
    exists id, source :: Asked(events, PlanCopy(id)) && Seen(plans, id, source) && IsCopyOf(row, source)
  }

  ghost predicate RunAsked(events: seq<Event>, row: Row<Run>) {
    exists request ::
      && Asked(events, RunImport(request)) && UsableLines(request.lines)
      && request.source.startedAt < request.source.endedAt && request.source.swath > 0.0
      && row == Row(1, Run(request.source.planId, request.code, request.lines, request.source.swath, request.quality,
                           Imported, Payload(request.source)))
  }

  /** A newly detected gap, about this area as the detection has read it. */
  ghost predicate IsDetectionOf(gap: Gap, detect: DetectRequest, area: Area) {
    && gap.state == Detected && gap.areaId == detect.areaId && gap.algorithm == detect.algorithm
    && NoDuplicates(gap.sourceRuns) && (forall id :: id in gap.sourceRuns <==> id in detect.runIds)
    && gap.boundary == area.values.boundary && gap.hash.coordinateSystem == area.values.coordinateSystem
    && gap.hash.resolution == if detect.resolution == 0.0 then area.values.resolution else detect.resolution
  }

  ghost predicate GapAsked(events: seq<Event>, areas: Table<Area>, row: Row<Gap>) {
    row.version == 1 && exists detect, area ::
      DetectAsked(events, detect) && Seen(areas, detect.areaId, area) && IsDetectionOf(row.data, detect, area.data)
  }

  // ---------- Writes ----------

  ghost predicate AreaEditAsked(events: seq<Event>, id: nat, e: Edit<Area>) {
    exists values ::
      && Asked(events, AreaUpdate(id, e.before.version, values)) && ProperBoundary(values.boundary)
      && e.after == Row(e.before.version + 1, Area(e.before.data.code, values))
  }

  ghost predicate PlanUpdateAsked(events: seq<Event>, id: nat, e: Edit<Plan>) {
    exists content ::
      && Asked(events, PlanUpdate(id, e.before.version, content)) && UsableLines(content.lines)
      && e.after == Row(e.before.version + 1, Plan(e.before.data.areaId, content, e.before.data.state))
  }

  ghost predicate PlanLockAsked(events: seq<Event>, id: nat, e: Edit<Plan>) {
    && Asked(events, PlanLock(id, e.before.version, PlanLocked)) && e.before.data.state == PlanDraft
    && e.after == Row(e.before.version + 1, Plan(e.before.data.areaId, e.before.data.content, PlanLocked))
  }

  ghost predicate RunEditAsked(events: seq<Event>, id: nat, e: Edit<Run>) {
    exists target, reason ::
      && Asked(events, RunMove(id, e.before.version, target, reason)) && RunMayMove(e.before.data.state, target)
      && (target == QualityChecked ==> e.before.data.quality != Invalid)
      && (target == Rejected ==> EncodedLength(reason) >= 4)
      && var run := e.before.data;
         e.after == Row(e.before.version + 1,
                        Run(run.planId, run.code, run.lines, run.swath, run.quality, target, run.checksum))
  }

  ghost predicate GapEditAsked(events: seq<Event>, id: nat, e: Edit<Gap>) {
    exists target ::
      && Asked(events, GapMove(id, e.before.version, target, e.note)) && GapMayMove(e.before.data.state, target)
      && var gap := e.before.data;
         e.after == Row(e.before.version + 1,
                        Gap(gap.areaId, gap.sourceRuns, gap.finding, gap.algorithm, gap.hash, target,
                            gap.explanation + " 复核记录：" + e.note, gap.boundary))
  }

  // ---------- All tables ----------

  ghost predicate AreasAsked(events: seq<Event>, t: Table<Area>) {
    && (forall id | id in t.born :: AreaAsked(events, t.born[id]))
    && (forall id, i | id in t.edits && 0 <= i < |t.edits[id]| :: AreaEditAsked(events, id, t.edits[id][i]))
  }

  ghost predicate PlansAsked(events: seq<Event>, t: Table<Plan>) {
    && (forall id | id in t.born :: PlanAsked(events, t.born[id]) || CopyAsked(events, t, t.born[id]))
    && (forall id, i | id in t.edits && 0 <= i < |t.edits[id]| ::
          PlanUpdateAsked(events, id, t.edits[id][i]) || PlanLockAsked(events, id, t.edits[id][i]))
  }

  ghost predicate RunsAsked(events: seq<Event>, t: Table<Run>) {
    && (forall id | id in t.born :: RunAsked(events, t.born[id]))
    && (forall id, i | id in t.edits && 0 <= i < |t.edits[id]| :: RunEditAsked(events, id, t.edits[id][i]))
  }

  ghost predicate GapsAsked(events: seq<Event>, areas: Table<Area>, t: Table<Gap>) {
    && (forall id | id in t.born :: GapAsked(events, areas, t.born[id]))
    && (forall id, i | id in t.edits && 0 <= i < |t.edits[id]| :: GapEditAsked(events, id, t.edits[id][i]))
  }

  /** A request in flight carries what its arrival asked for, and has passed the checks of its position. */
  ghost predicate TaskAsked(events: seq<Event>, task: Task) {
    match task
    case AreaUpdateChecked(id, version, values, _) =>
      Asked(events, AreaUpdate(id, version, values)) && ProperBoundary(values.boundary)
    case AreaWritten(_, _, _) => true
    case PlanCreateChecked(areaId, content) => Asked(events, PlanCreate(areaId, content)) && UsableLines(content.lines)
    case PlanUpdateChecked(id, version, content, _) =>
      Asked(events, PlanUpdate(id, version, content)) && UsableLines(content.lines)
    case PlanLockChecked(id, version, _) => Asked(events, PlanLock(id, version, PlanLocked))
    case PlanWritten(_, _, _) => true
    case PlanCopyRead(id, _) => Asked(events, PlanCopy(id))
    case RunImportChecked(request, _) => ImportAsked(events, request)
    case RunImportMissed(request, _) => ImportAsked(events, request)
    case RunMoveChecked(id, version, target, _) =>
      exists reason ::
        Asked(events, RunMove(id, version, target, reason)) && (target == Rejected ==> EncodedLength(reason) >= 4)
    case RunWritten(_, _) => true
    case GapDetectArea(detect, _) => DetectAsked(events, detect)
    case GapDetectRuns(detect, _, _, _) => DetectAsked(events, detect)
    case GapDetectHashed(detect, _, _, _, _) => DetectAsked(events, detect)
    case GapDetectMissed(detect, _, _, _, _) => DetectAsked(events, detect)
    case GapMoveChecked(id, version, target, note, _) => Asked(events, GapMove(id, version, target, note))
    case GapWritten(_, _) => true
    case Auditing(_) => true
    case _ => Asked(events, task)
  }

  ghost predicate ImportAsked(events: seq<Event>, request: ImportRequest) {
    Asked(events, RunImport(request)) && UsableLines(request.lines) && request.source.startedAt < request.source.endedAt
  }

  ghost predicate DetectAsked(events: seq<Event>, detect: DetectRequest) {
    Asked(events, GapDetect(detect)) && 8 <= |detect.key| <= 120
  }

  ghost predicate AllAsked(events: seq<Event>, s: System) {
    && AreasAsked(events, s.areas) && PlansAsked(events, s.plans) && RunsAsked(events, s.runs)
    && GapsAsked(events, s.areas, s.gaps)
    && forall tid | tid in s.tasks :: TaskAsked(events, s.tasks[tid])
  }

  // ---------- More events and later tables ----------

  lemma StaysAsked(events: seq<Event>, more: Event)
    ensures forall request | Asked(events, request) :: Asked(events + [more], request)
  {
  }

  lemma CopyStaysAsked(events: seq<Event>, t: Table<Plan>, later: Table<Plan>, row: Row<Plan>)
    requires CopyAsked(events, t, row) && Extends(later, t)
    ensures CopyAsked(events, later, row)
  {
    hide IsCopyOf;
    var id, source :| Asked(events, PlanCopy(id)) && Seen(t, id, source) && IsCopyOf(row, source);
    StaysSeen(t, later, id, source);
  }

  lemma GapStaysAsked(events: seq<Event>, areas: Table<Area>, later: Table<Area>, row: Row<Gap>)
    requires GapAsked(events, areas, row) && Extends(later, areas)
    ensures GapAsked(events, later, row)
  {
    hide IsDetectionOf;
    var detect, area :|
      DetectAsked(events, detect) && Seen(areas, detect.areaId, area) && IsDetectionOf(row.data, detect, area.data);
    StaysSeen(areas, later, detect.areaId, area);
  }

  lemma RowsStayAsked(events: seq<Event>, more: Event, s: System)
    requires AllAsked(events, s)
    ensures AreasAsked(events + [more], s.areas) && PlansAsked(events + [more], s.plans)
    ensures RunsAsked(events + [more], s.runs) && GapsAsked(events + [more], s.areas, s.gaps)
  {
    hide Asked, ProperBoundary, UsableLines, RunMayMove, GapMayMove, Seen, IsCopyOf, IsDetectionOf;
    StaysAsked(events, more);
  }

  lemma AllStaysAsked(events: seq<Event>, more: Event, s: System)
    requires AllAsked(events, s)
    ensures AllAsked(events + [more], s)
  {
    hide AreasAsked, PlansAsked, RunsAsked, GapsAsked;
    RowsStayAsked(events, more, s);
    forall tid | tid in s.tasks
      ensures TaskAsked(events + [more], s.tasks[tid])
    {
      TaskStaysAsked(events, more, s.tasks[tid]);
    }
  }

  lemma TaskStaysAsked(events: seq<Event>, more: Event, task: Task)
    requires TaskAsked(events, task)
    ensures TaskAsked(events + [more], task)
  {
    hide Asked, ProperBoundary, UsableLines;
    StaysAsked(events, more);
  }

  // ---------- Tables with one more row or one more edit ----------

  lemma AreasGrow(events: seq<Event>, t: Table<Area>)
    requires AreasAsked(events, t)
    ensures forall id, row | AreaAsked(events, row) :: AreasAsked(events, t.Insert(id, row))
    ensures forall id, data, note | id in t.rows && id in t.edits
        && AreaEditAsked(events, id, Edit(t.rows[id], Row(t.rows[id].version + 1, data), note)) ::
      AreasAsked(events, t.Commit(id, data, note))
  {
    hide AreaAsked, AreaEditAsked;
  }

  lemma PlansGrow(events: seq<Event>, t: Table<Plan>)
    requires PlansAsked(events, t)
    ensures forall id, row | id !in t.rows && (PlanAsked(events, row) || CopyAsked(events, t, row)) ::
      PlansAsked(events, t.Insert(id, row))
    ensures forall id, data, note | id in t.rows && id in t.edits
        && (var e := Edit(t.rows[id], Row(t.rows[id].version + 1, data), note);
            PlanUpdateAsked(events, id, e) || PlanLockAsked(events, id, e)) ::
      PlansAsked(events, t.Commit(id, data, note))
  {
    hide PlanAsked, CopyAsked, PlanUpdateAsked, PlanLockAsked, Extends;
    forall id, row | id !in t.rows && (PlanAsked(events, row) || CopyAsked(events, t, row))
      ensures PlansAsked(events, t.Insert(id, row))
    {
      InsertExtends(t, id, row);
      CopiesStayAsked(events, t, t.Insert(id, row));
    }
    forall id, data, note | id in t.rows && id in t.edits
        && (var e := Edit(t.rows[id], Row(t.rows[id].version + 1, data), note);
            PlanUpdateAsked(events, id, e) || PlanLockAsked(events, id, e))
      ensures PlansAsked(events, t.Commit(id, data, note))
    {
      CommitExtends(t, id, data, note);
      CopiesStayAsked(events, t, t.Commit(id, data, note));
    }
  }

  lemma CopiesStayAsked(events: seq<Event>, t: Table<Plan>, later: Table<Plan>)
    requires Extends(later, t)
    ensures forall row | CopyAsked(events, t, row) :: CopyAsked(events, later, row)
  {
    hide CopyAsked, Extends;
    forall row | CopyAsked(events, t, row)
      ensures CopyAsked(events, later, row)
    {
      CopyStaysAsked(events, t, later, row);
    }
  }

  lemma RunsGrow(events: seq<Event>, t: Table<Run>)
    requires RunsAsked(events, t)
    ensures forall id, row | RunAsked(events, row) :: RunsAsked(events, t.Insert(id, row))
    ensures forall id, data, note | id in t.rows && id in t.edits
        && RunEditAsked(events, id, Edit(t.rows[id], Row(t.rows[id].version + 1, data), note)) ::
      RunsAsked(events, t.Commit(id, data, note))
  {
    hide RunAsked, RunEditAsked;
  }

  lemma GapsGrow(events: seq<Event>, areas: Table<Area>, t: Table<Gap>)
    requires GapsAsked(events, areas, t)
    ensures forall id, row | GapAsked(events, areas, row) :: GapsAsked(events, areas, t.Insert(id, row))
    ensures forall id, data, note | id in t.rows && id in t.edits
        && GapEditAsked(events, id, Edit(t.rows[id], Row(t.rows[id].version + 1, data), note)) ::
      GapsAsked(events, areas, t.Commit(id, data, note))
  {
    hide GapAsked, GapEditAsked;
  }

  lemma GapsOfLaterAreas(events: seq<Event>, areas: Table<Area>, later: Table<Area>, t: Table<Gap>)
    requires GapsAsked(events, areas, t) && Extends(later, areas)
    ensures GapsAsked(events, later, t)
  {
    hide GapAsked, GapEditAsked, Extends;
    forall id | id in t.born
      ensures GapAsked(events, later, t.born[id])
    {
      GapStaysAsked(events, areas, later, t.born[id]);
    }
  }
}
