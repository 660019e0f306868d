/** The four stored entities, the checks the services make on them, and the writes the repositories apply to them. */
module Records {
  import opened Collections
  import opened Wrappers
  import opened Plane
  import opened Polygons
  import opened Coverage
  import opened States
  import opened Checksums
  import opened Tables

  datatype AreaStatus = AreaDraft | AreaActive | AreaArchived

  datatype Area = Area(code: string, values: AreaValues)

  /** What an area update sets. */
  datatype AreaValues = AreaValues(name: string, boundary: Polygon, resolution: real, coordinateSystem: string,
                                   status: AreaStatus)

  datatype PlanState = PlanDraft | PlanLocked

  datatype Plan = Plan(areaId: nat, content: PlanContent, state: PlanState)

  /** What a plan update sets. */
  datatype PlanContent = PlanContent(name: string, lines: seq<Line>, heading: real, swath: real, spacing: real)

  datatype Quality = Good | Degraded | Invalid

  datatype Run = Run(planId: nat, code: string, lines: seq<Line>, swath: real, quality: Quality, state: RunState,
                     checksum: string)

  /** The columns of a gap row that come out of the coverage calculation. */
  datatype Finding = Finding(gap: Polygon, area: real, gapRatio: real, severity: Severity, recommended: Line,
                             coverageRatio: real, overlapRatio: real)

  /** `boundary` is the area's boundary at detection time; the source does not store it. */
  datatype Gap = Gap(areaId: nat, sourceRuns: seq<nat>, finding: Finding, algorithm: string, hash: InputHash,
                     state: GapState, explanation: string, boundary: Polygon)

  datatype ServiceError =
    | NotFound | VersionConflict | Duplicate
    | AreaClosed | AreaGeometryInvalid
    | PlanNotDraft | PlanNotLocked | LinesInvalid
    | RunTimeInvalid | SwathInvalid | RunTransitionInvalid | NavigationInvalid | ReasonRequired
    | GapTransitionInvalid | KeyRequired | RunSetIncomplete | RunAreaMismatch | RunNotProcessed | CoverageInvalid

  const MAX_AREA := 1000000000.0

  // ---------- Checks ----------

  /** At least one line, and at least two positions on each. */
  predicate ValidLines(lines: seq<Line>) {
    lines != [] && forall line | line in lines :: |line| >= 2
  }

  /** An exterior ring of four or more positions and an area that is positive but not too large. */
  predicate ValidBoundary(boundary: Polygon) {
    boundary != [] && |boundary[0]| >= 4 && 0.0 < NetArea(boundary) <= MAX_AREA
  }

  function CheckAreaUpdate(before: Area, values: AreaValues): Option<ServiceError> {
    if before.values.status == AreaArchived then Some(AreaClosed)
    else if !ValidBoundary(values.boundary) then Some(AreaGeometryInvalid)
    else None
  }

  function CheckPlanUpdate(before: Plan, content: PlanContent): Option<ServiceError> {
    if before.state != PlanDraft then Some(PlanNotDraft)
    else if !ValidLines(content.lines) then Some(LinesInvalid)
    else None
  }

  function CheckPlanLock(before: Plan, target: PlanState): Option<ServiceError> {
    if before.state != PlanDraft || target != PlanLocked then Some(PlanNotDraft) else None
  }

  datatype ImportRequest = ImportRequest(source: Source, code: string, lines: seq<Line>, quality: Quality)

  function CheckImport(plan: Plan, request: ImportRequest): Option<ServiceError> {
    if plan.state != PlanLocked then Some(PlanNotLocked)
    else if !ValidLines(request.lines) then Some(LinesInvalid)
    else if request.source.endedAt <= request.source.startedAt then Some(RunTimeInvalid)
    else None
  }

  function ImportedRun(request: ImportRequest): Run
    requires request.source.swath > 0.0
  {
    Run(request.source.planId, request.code, request.lines, request.source.swath, request.quality, Imported,
        Payload(request.source))
  }

  /** How many bytes a text takes in UTF-8 (RFC 3629, section 3). */
  function EncodedLength(s: string): nat {
    if s == [] then 0 else EncodedLength(s[..|s| - 1]) + EncodedSize(s[|s| - 1])
  }

  function EncodedSize(c: char): nat {
    var code := c as int;
    if code < 0x80 then 1 else if code < 0x800 then 2 else if code < 0x10000 then 3 else 4
  }

  function CheckRunMove(before: Run, target: RunState, reason: string): Option<ServiceError> {
    if !before.state.CanTransition(target) then Some(RunTransitionInvalid)
    else if target == QualityChecked && before.quality == Invalid then Some(NavigationInvalid)
    else if target == Rejected && EncodedLength(reason) < 4 then Some(ReasonRequired)
    else None
  }

  function CheckGapMove(before: Gap, target: GapState): Option<ServiceError> {
    if !before.state.CanTransition(target) then Some(GapTransitionInvalid) else None
  }

  // ---------- Writes ----------

  /** The data a conditional update leaves in the row it matches; `None` when it matches no row. */
  function UpdatedArea(row: Row<Area>, version: nat, values: AreaValues): Option<Area> {
    if row.version == version then Some(row.data.(values := values)) else None
  }

  function UpdatedPlan(row: Row<Plan>, version: nat, content: PlanContent): Option<Plan> {
    if row.version == version then Some(row.data.(content := content)) else None
  }

  function MovedPlan(row: Row<Plan>, version: nat, from: PlanState, to: PlanState): Option<Plan> {
    if row.version == version && row.data.state == from then Some(row.data.(state := to)) else None
  }

  function MovedRun(row: Row<Run>, version: nat, from: RunState, to: RunState): Option<Run> {
    if row.version == version && row.data.state == from then Some(row.data.(state := to)) else None
  }

  function MovedGap(row: Row<Gap>, version: nat, from: GapState, to: GapState, explanation: string): Option<Gap> {
    if row.version == version && row.data.state == from then
      Some(row.data.(state := to, explanation := explanation))
    else None
  }

  const COPY_SUFFIX := " / 复制版本"

  /** A copied plan is a draft that starts one version above its source. */
  function CopiedPlan(source: Row<Plan>): Row<Plan> {
    var content := source.data.content.(name := source.data.content.name + COPY_SUFFIX);
    Row(source.version + 1, source.data.(content := content, state := PlanDraft))
  }

  // ---------- Gap explanations ----------

  const REVIEW_MARK := " 复核记录："

  /** A review appends its note to the explanation it has read. */
  function Annotated(explanation: string, note: string): string {
    explanation + REVIEW_MARK + note
  }

  /** One decimal, as the `%.1f` verb prints it. */
  function Fixed1(x: real): string
    decreases x < 0.0
  {
    if x < 0.0 then "-" + Fixed1(-x)
    else
      var tenths := Rounded(x * 10.0);
      Decimal(tenths / 10) + "." + [Digit(tenths % 10)]
  }

  function DetectionText(resolution: real, result: CoverageResult): string {
    "以 " + Fixed1(resolution) + " 米网格分析 " + Decimal(result.sampleCells) + " 个单元；过滤 "
      + Decimal(result.filteredFragments) + " 个低于分辨率阈值的碎片。补测线仅供人工规划参考。"
  }

  function FindingOf(result: CoverageResult): Finding {
    Finding(result.gap, result.area * result.gapRatio, result.gapRatio, SeverityForRatio(result.gapRatio),
            result.recommended, result.coverageRatio, result.overlapRatio)
  }

  // ---------- Detection ----------

  datatype DetectRequest = DetectRequest(key: string, areaId: nat, runIds: seq<nat>, algorithm: string,
                                         resolution: real)

  /** The ids without repetitions, in the order of their first occurrences. */
  function UniqueIds(ids: seq<nat>): (u: seq<nat>)
  {
    if ids == [] then []
    else
      var u := UniqueIds(ids[..|ids| - 1]);
      if ids[|ids| - 1] in u then u else u + [ids[|ids| - 1]]
  }

  lemma {:induction false} UniqueIdsAreTheSameIds(ids: seq<nat>)
    ensures NoDuplicates(UniqueIds(ids))
    ensures forall id :: id in UniqueIds(ids) <==> id in ids
  {
    if ids != [] {
      UniqueIdsAreTheSameIds(ids[..|ids| - 1]);
      assert ids == ids[..|ids| - 1] + [ids[|ids| - 1]];
    }
  }

  /** A zero resolution stands for the area's own. */
  function ChosenResolution(request: DetectRequest, area: Area): real {
    if request.resolution == 0.0 then area.values.resolution else request.resolution
  }

  function ChecksumsOf(runs: seq<Run>): (c: seq<string>)
    ensures |c| == |runs|
    ensures forall i | 0 <= i < |runs| :: c[i] == runs[i].checksum
  {
    if runs == [] then [] else ChecksumsOf(runs[..|runs| - 1]) + [runs[|runs| - 1].checksum]
  }

  function TracksOf(ids: seq<nat>, runs: seq<Run>): (t: seq<Track>)
    requires |ids| == |runs|
    ensures |t| == |runs|
    ensures forall i | 0 <= i < |runs| :: t[i] == Track(ids[i], runs[i].lines, runs[i].swath)
  {
    if runs == [] then []
    else
      var n := |runs| - 1;
      TracksOf(ids[..n], runs[..n]) + [Track(ids[n], runs[n].lines, runs[n].swath)]
  }

  /** The checks of a detection, run by run: the run's plan is one of the area's, and the run is processed. */
  function CheckSources(areaId: nat, runs: seq<Run>, plans: seq<Plan>): Option<ServiceError>
    requires |runs| == |plans|
  {
    if runs == [] then None
    else
      var n := |runs| - 1;
      var earlier := CheckSources(areaId, runs[..n], plans[..n]);
      if earlier.Some? then earlier
      else if plans[n].areaId != areaId then Some(RunAreaMismatch)
      else if runs[n].state != Processed then Some(RunNotProcessed)
      else if !ValidLines(runs[n].lines) then Some(LinesInvalid)
      else None
  }

  lemma {:induction false} SourcesPass(areaId: nat, runs: seq<Run>, plans: seq<Plan>)
    requires |runs| == |plans|
    ensures CheckSources(areaId, runs, plans).None? <==>
      forall i | 0 <= i < |runs| :: plans[i].areaId == areaId && runs[i].state == Processed && ValidLines(runs[i].lines)
  {
    if runs != [] {
      var n := |runs| - 1;
      SourcesPass(areaId, runs[..n], plans[..n]);
      if CheckSources(areaId, runs, plans).None? {
        forall i | 0 <= i < |runs|
          ensures plans[i].areaId == areaId && runs[i].state == Processed && ValidLines(runs[i].lines)
        {
          if i < n {
            assert runs[..n][i] == runs[i] && plans[..n][i] == plans[i];
          }
        }
      } else if CheckSources(areaId, runs[..n], plans[..n]).Some? {
        var i :| 0 <= i < n && !(plans[..n][i].areaId == areaId && runs[..n][i].state == Processed
                                 && ValidLines(runs[..n][i].lines));
        assert !(plans[i].areaId == areaId && runs[i].state == Processed && ValidLines(runs[i].lines));
      }
    }
  }

  function HashOf(request: DetectRequest, area: Area, runs: seq<Run>): InputHash {
    StableInputHash(request.areaId, area.values.coordinateSystem, request.algorithm, ChecksumsOf(runs),
                    ChosenResolution(request, area))
  }

  function DetectedGap(request: DetectRequest, area: Area, hash: InputHash, result: CoverageResult): Gap
  {
    Gap(request.areaId, UniqueIds(request.runIds), FindingOf(result), request.algorithm, hash, Detected,
        DetectionText(ChosenResolution(request, area), result), area.values.boundary)
  }
}
