/** What repeating an import or a detection answers, at any later time and after whatever else has happened. */
module Idempotence {
  import opened Collections
  import opened Wrappers
  import opened Coverage
  import opened States
  import opened Checksums
  import opened Tables
  import opened Records
  import opened Evolution
  import opened Workflow
  import opened Invariant
  import opened RunInputs
  import opened Reachability
  import opened Growth
  import opened Requests
  import GapSteps

  // ---------- Stored runs and gaps later on ----------

  /** A stored run keeps all but its state, and no other run ever has its checksum. */
  lemma RunStays(events: seq<Event>, more: seq<Event>, id: nat)
    requires id in After(events).runs.rows
    ensures var now := After(events + more);
      && id in now.runs.rows && RunEvolves(After(events).runs.rows[id], now.runs.rows[id])
      && forall other | other in now.runs.rows
          && now.runs.rows[other].data.checksum == now.runs.rows[id].data.checksum ::
           other == id
  {
    hide Inv, Apply, Extends, Seen, LegalRuns, RunEvolves;
    var all := events + more;
    assert all[..|events|] == events;
    TablesGrow(all, |events|, RunKey(id));
    AlwaysSound(all);
    InvParts(After(all));
    RowIsSeen(After(events).runs, id);
    StaysSeen(After(events).runs, After(all).runs, id, After(events).runs.rows[id]);
    SeenRun(After(all).runs, id, After(events).runs.rows[id]);
    OnlyInTable(After(all).runs, id, After(events).runs.rows[id]);
  }

  lemma RowIsSeen<R>(t: Table<R>, id: nat)
    requires id in t.rows && t.edits.Keys == t.rows.Keys
    ensures Seen(t, id, t.rows[id])
  {
  }

  lemma OnlyInTable<R>(t: Table<R>, id: nat, row: Row<R>)
    requires Seen(t, id, row)
    ensures id in t.rows
  {
  }

  /** A stored gap keeps all but its state and explanation. */
  lemma GapStays(events: seq<Event>, more: seq<Event>, id: nat)
    requires id in After(events).gaps.rows
    ensures var now := After(events + more);
      id in now.gaps.rows && GapEvolves(After(events).gaps.rows[id], now.gaps.rows[id])
  {
    hide Inv, Apply, Extends, Seen, LegalGaps, GapEvolves;
    var all := events + more;
    assert all[..|events|] == events;
    TablesGrow(all, |events|, GapKey(id));
    AlwaysSound(all);
    InvParts(After(all));
    RowIsSeen(After(events).gaps, id);
    StaysSeen(After(events).gaps, After(all).gaps, id, After(events).gaps.rows[id]);
    SeenGap(After(all).gaps, id, After(events).gaps.rows[id]);
    OnlyInTable(After(all).gaps, id, After(events).gaps.rows[id]);
  }

  /** Every stored run has usable lines and the checksum of a source with its plan and a proper time span. */
  lemma RunsComeFromSources(events: seq<Event>, id: nat) returns (source: Source)
    requires id in After(events).runs.rows
    ensures var run := After(events).runs.rows[id].data; ValidLines(run.lines) && IsSourceOf(source, run)
  {
    hide Inv, Apply, LegalRuns, IsSourceOf, ValidLines;
    AlwaysSound(events);
    InvParts(After(events));
    RowsBeginWell(events);
    source := SourceOfStored(After(events).runs, id);
  }

  lemma SourceOfStored(t: Table<Run>, id: nat) returns (source: Source)
    requires LegalRuns(t) && BornRuns(t) && id in t.rows
    ensures ValidLines(t.rows[id].data.lines) && IsSourceOf(source, t.rows[id].data)
  {
    hide ValidLines, Payload;
    EvolvesFromFirst(t.born[id], t.edits[id], t.rows[id], (a, b) => RunEvolves(a, b));
    source :| IsSourceOf(source, t.born[id].data);
  }

  // ---------- Imports ----------

  /**
   However much later, and whatever its code and quality, an import with the checksum of a stored run answers with that
   run and changes nothing, exactly when its lines are usable; otherwise it is refused.
   */
  lemma ImportIsIdempotent(events: seq<Event>, more: seq<Event>, id: nat, request: ImportRequest, newId: nat)
    requires id in After(events).runs.rows && request.source.swath > 0.0
    requires Payload(request.source) == After(events).runs.rows[id].data.checksum
    ensures var s := After(events + more);
      && id in s.runs.rows
      && AfterImport(s, request, newId)
           == if ValidLines(request.lines) then Answered(RunReply(s.runs.rows[id], true), s)
               else Answered(Failed(LinesInvalid), s)
  {
    hide Inv, Apply, Payload, AfterImport, ValidLines, IsSourceOf, SoundRun, RunEvolves;
    var s := After(events + more);
    RunStays(events, more, id);
    assert s.runs.rows[id].data.checksum == Payload(request.source) by {
      KeepsChecksum(After(events).runs.rows[id], s.runs.rows[id]);
    }
    AlwaysSound(events + more);
    InvParts(s);
    var source := RunsComeFromSources(events + more, id);
    RunsSitOnLockedPlans(events + more, id);
    StoredSourceAnswers(s, id, source, request, newId);
  }

  lemma KeepsChecksum(before: Row<Run>, after: Row<Run>)
    requires RunEvolves(before, after)
    ensures after.data.checksum == before.data.checksum
  {
  }

  lemma StoredSourceAnswers(s: System, id: nat, source: Source, request: ImportRequest, newId: nat)
    requires TablesComplete(s) && UniqueRuns(s.runs.rows) && id in s.runs.rows
    requires request.source.swath > 0.0 && s.runs.rows[id].data.checksum == Payload(request.source)
    requires IsSourceOf(source, s.runs.rows[id].data) && SoundRun(s.plans.rows, s.runs.rows[id].data)
    ensures AfterImport(s, request, newId)
         == if ValidLines(request.lines) then Answered(RunReply(s.runs.rows[id], true), s)
             else Answered(Failed(LinesInvalid), s)
  {
    hide Payload, RunTaken, RunWith, ValidLines, UniqueRuns;
    PayloadIsDecodable(source, request.source);
    OnlyRunWith(s.runs.rows, id);
  }

  // ---------- Detections ----------

  /** A request for the calculation of a stored gap: the same runs, listed in any order and with any repetitions. */
  ghost predicate AsksFor(detect: DetectRequest, gap: Gap) {
    && 8 <= |detect.key| <= 120
    && detect.areaId == gap.areaId && detect.algorithm == gap.algorithm
    && forall id :: id in detect.runIds <==> id in gap.sourceRuns
  }

  ghost predicate AllProcessed(runs: map<nat, Row<Run>>, ids: seq<nat>) {
    forall id | id in ids :: id in runs && runs[id].data.state == Processed
  }

  /** The area still says what entered the gap's hash. */
  ghost predicate SameInputs(detect: DetectRequest, area: Area, gap: Gap) {
    area.values.coordinateSystem == gap.hash.coordinateSystem && ChosenResolution(detect, area) == gap.hash.resolution
  }

  /**
   However much later, a repeated detection answers with the stored gap exactly when all its runs are still processed
   and the area's coordinate system and the chosen resolution are those of the gap; it then changes nothing. Once one
   of the runs is superseded it is refused for that reason.
   */
  lemma DetectIsIdempotent(events: seq<Event>, more: seq<Event>, id: nat, detect: DetectRequest, choice: Choice)
    requires id in After(events).gaps.rows && AsksFor(detect, After(events).gaps.rows[id].data)
    requires IsAnswer(choice.order, detect.runIds, After(events + more).runs.rows)
    ensures var s, gap := After(events + more), After(events).gaps.rows[id].data;
      && id in s.gaps.rows && gap.areaId in s.areas.rows
      && (AfterDetect(s, detect, choice).reply == GapReply(s.gaps.rows[id], true)
          <==> AllProcessed(s.runs.rows, gap.sourceRuns) && SameInputs(detect, s.areas.rows[gap.areaId].data, gap))
      && (AllProcessed(s.runs.rows, gap.sourceRuns) && SameInputs(detect, s.areas.rows[gap.areaId].data, gap) ==>
            AfterDetect(s, detect, choice) == Answered(GapReply(s.gaps.rows[id], true), s))
      && (!AllProcessed(s.runs.rows, gap.sourceRuns) ==>
            AfterDetect(s, detect, choice) == Answered(Failed(RunNotProcessed), s))
  {
    hide Inv, Apply, AfterDetect, IsAnswer, AsksFor, AllProcessed, SameInputs, SoundGap, GapEvolves;
    var s := After(events + more);
    GapStays(events, more, id);
    var gap := s.gaps.rows[id].data;
    SameQuestion(After(events).gaps.rows[id], s.gaps.rows[id], detect);
    AlwaysSound(events + more);
    GapsRestOnSoundRuns(events + more, id);
    forall run | run in gap.sourceRuns
      ensures run in s.runs.rows && ValidLines(s.runs.rows[run].data.lines)
    {
      SourceExists(s, gap, run);
      var _ := RunsComeFromSources(events + more, run);
    }
    RepeatAnswers(s, id, detect, choice);
  }

  lemma SameQuestion(before: Row<Gap>, after: Row<Gap>, detect: DetectRequest)
    requires GapEvolves(before, after)
    ensures AsksFor(detect, before.data) <==> AsksFor(detect, after.data)
    ensures after.data.areaId == before.data.areaId && after.data.sourceRuns == before.data.sourceRuns
    ensures forall area :: SameInputs(detect, area, before.data) <==> SameInputs(detect, area, after.data)
  {
    hide ChosenResolution;
  }

  lemma SourceExists(s: System, gap: Gap, run: nat)
    requires SoundGap(s.areas.rows, s.plans.rows, s.runs.rows, gap) && run in gap.sourceRuns
    ensures gap.areaId in s.areas.rows && SoundSource(s.runs.rows, s.plans.rows, gap.areaId, run) && run in s.runs.rows
  {
    hide HashesItsRuns, Recomputes;
  }

  /** What a repeated detection meets in any reachable state that holds the gap. */
  lemma RepeatAnswers(s: System, id: nat, detect: DetectRequest, choice: Choice)
    requires Inv(s) && TablesComplete(s) && id in s.gaps.rows
    requires SoundGap(s.areas.rows, s.plans.rows, s.runs.rows, s.gaps.rows[id].data)
      && AsksFor(detect, s.gaps.rows[id].data)
    requires forall run | run in s.gaps.rows[id].data.sourceRuns ::
      run in s.runs.rows && ValidLines(s.runs.rows[run].data.lines)
    requires IsAnswer(choice.order, detect.runIds, s.runs.rows)
    ensures var gap, done := s.gaps.rows[id].data, AfterDetect(s, detect, choice);
      && gap.areaId in s.areas.rows
      && var processed, same := AllProcessed(s.runs.rows, gap.sourceRuns),
          SameInputs(detect, s.areas.rows[gap.areaId].data, gap);
         && (!processed ==> done == Answered(Failed(RunNotProcessed), s))
         && (processed && same ==> done == Answered(GapReply(s.gaps.rows[id], true), s))
         && (processed && !same ==> done.reply != GapReply(s.gaps.rows[id], true))
  {
    hide Inv, AfterDetect, SameInputs, SoundGap, CheckedRuns, NoDuplicates;
    var gap := s.gaps.rows[id].data;
    forall run | run in detect.runIds
      ensures gap.areaId in s.areas.rows && SoundSource(s.runs.rows, s.plans.rows, gap.areaId, run)
    {
      SourceExists(s, gap, run);
    }
    AreaExists(s, gap);
    AllAnswered(choice.order, detect.runIds, s.runs.rows);
    SoundSourcesAreProcessed(s, gap.areaId, choice.order);
    RefusedOrChecked(s, detect, choice);
    if AllProcessed(s.runs.rows, gap.sourceRuns) {
      ProcessedIsChecked(s, detect, choice);
      HashDecides(s, id, detect, choice);
    }
  }

  lemma AreaExists(s: System, gap: Gap)
    requires SoundGap(s.areas.rows, s.plans.rows, s.runs.rows, gap)
    ensures gap.areaId in s.areas.rows
  {
    hide HashesItsRuns, Recomputes, SoundSource;
  }

  /** When all wanted rows exist, the answer has each of them once. */
  lemma AllAnswered(order: seq<nat>, wanted: seq<nat>, rows: map<nat, Row<Run>>)
    requires IsAnswer(order, wanted, rows) && forall id | id in wanted :: id in rows
    ensures |order| == |UniqueIds(wanted)| && forall id :: id in order <==> id in wanted
  {
    hide UniqueIds;
    UniqueIdsAreTheSameIds(wanted);
    SameMembers(order, UniqueIds(wanted));
    assert |multiset(order)| == |order| && |multiset(UniqueIds(wanted))| == |UniqueIds(wanted)|;
  }

  /** On sound sources the checks of a detection come down to the states of the runs. */
  lemma SoundSourcesAreProcessed(s: System, areaId: nat, order: seq<nat>)
    requires forall id | id in order :: SoundSource(s.runs.rows, s.plans.rows, areaId, id)
    requires forall id | id in order :: id in s.runs.rows && ValidLines(s.runs.rows[id].data.lines)
    ensures var runs := RowsOf(s.runs.rows, order);
      && AllIn(PlanIdsOf(runs), s.plans.rows)
      && CheckSources(areaId, DataOf(runs), DataOf(RowsOf(s.plans.rows, PlanIdsOf(runs))))
           == if AllProcessed(s.runs.rows, order) then None else Some(RunNotProcessed)
  {
    hide CheckSources, ValidLines, DataOf, PlanIdsOf, RowsOf;
    var runs := RowsOf(s.runs.rows, order);
    forall i | 0 <= i < |order|
      ensures PlanIdsOf(runs)[i] in s.plans.rows && s.plans.rows[PlanIdsOf(runs)[i]].data.areaId == areaId
      ensures DataOf(runs)[i] == s.runs.rows[order[i]].data
    {
      assert SoundSource(s.runs.rows, s.plans.rows, areaId, order[i]);
    }
    assert forall id | id in PlanIdsOf(runs) :: id in s.plans.rows;
    OnlyStatesMatter(areaId, DataOf(runs), DataOf(RowsOf(s.plans.rows, PlanIdsOf(runs))));
    if !AllProcessed(s.runs.rows, order) {
      var id :| id in order && !(id in s.runs.rows && s.runs.rows[id].data.state == Processed);
      var i :| 0 <= i < |order| && order[i] == id;
      assert DataOf(runs)[i].state != Processed;
    }
  }

  lemma {:induction false} OnlyStatesMatter(areaId: nat, runs: seq<Run>, plans: seq<Plan>)
    requires |runs| == |plans|
    requires forall i | 0 <= i < |runs| :: plans[i].areaId == areaId && ValidLines(runs[i].lines)
    ensures CheckSources(areaId, runs, plans)
         == if forall i | 0 <= i < |runs| :: runs[i].state == Processed then None else Some(RunNotProcessed)
  {
    hide ValidLines;
    if runs != [] {
      OnlyStatesMatter(areaId, runs[..|runs| - 1], plans[..|runs| - 1]);
    }
  }

  lemma RefusedOrChecked(s: System, detect: DetectRequest, choice: Choice)
    requires TablesComplete(s) && IsAnswer(choice.order, detect.runIds, s.runs.rows)
    requires 8 <= |detect.key| <= 120 && detect.areaId in s.areas.rows && |choice.order| == |UniqueIds(detect.runIds)|
    requires var runs := RowsOf(s.runs.rows, choice.order);
      && AllIn(PlanIdsOf(runs), s.plans.rows)
      && CheckSources(detect.areaId, DataOf(runs), DataOf(RowsOf(s.plans.rows, PlanIdsOf(runs))))
           == if AllProcessed(s.runs.rows, choice.order) then None else Some(RunNotProcessed)
    ensures AfterDetect(s, detect, choice)
         == if AllProcessed(s.runs.rows, choice.order) then
              AfterCheckedDetection(s, detect, s.areas.rows[detect.areaId].data, choice.order,
                                    DataOf(RowsOf(s.runs.rows, choice.order)), choice.newId)
            else Answered(Failed(RunNotProcessed), s)
  {
    hide UniqueIds, CheckSources, AfterCheckedDetection, AllProcessed, NoDuplicates, PlanIdsOf, DataOf, RowsOf;
  }

  /** Rows read just now are rows that have been seen. */
  lemma ProcessedIsChecked(s: System, detect: DetectRequest, choice: Choice)
    requires Inv(s) && TablesComplete(s) && IsAnswer(choice.order, detect.runIds, s.runs.rows)
    requires detect.areaId in s.areas.rows && AllProcessed(s.runs.rows, choice.order)
    requires forall id :: id in choice.order <==> id in detect.runIds
    requires forall id | id in choice.order :: SoundSource(s.runs.rows, s.plans.rows, detect.areaId, id)
    requires AllIn(PlanIdsOf(RowsOf(s.runs.rows, choice.order)), s.plans.rows)
    ensures var runs := RowsOf(s.runs.rows, choice.order);
      CheckedRuns(s, detect, s.areas.rows[detect.areaId], choice.order, runs, RowsOf(s.plans.rows, PlanIdsOf(runs)))
  {
    hide Inv, SeenAll, DataOf, PlanIdsOf, RowsOf, ReadRuns;
    InvParts(s);
    var runs := RowsOf(s.runs.rows, choice.order);
    assert forall id | id in PlanIdsOf(runs) :: id in s.plans.rows;
    RunsReadNow(s, detect, choice.order);
    GapSteps.RowsAreSeen(s.plans, PlanIdsOf(runs));
    SourcesOfArea(s, detect.areaId, choice.order);
  }

  lemma RunsReadNow(s: System, detect: DetectRequest, order: seq<nat>)
    requires Inv(s) && TablesComplete(s) && IsAnswer(order, detect.runIds, s.runs.rows) && detect.areaId in s.areas.rows
    ensures ReadRuns(s, detect, s.areas.rows[detect.areaId], order, RowsOf(s.runs.rows, order))
  {
    hide Inv, Seen, SeenAll, RowsOf, NoDuplicates;
    InvParts(s);
    GapSteps.RowsAreSeen(s.runs, order);
    RowIsSeen(s.areas, detect.areaId);
  }

  lemma SourcesOfArea(s: System, areaId: nat, order: seq<nat>)
    requires forall id | id in order :: SoundSource(s.runs.rows, s.plans.rows, areaId, id)
    requires AllProcessed(s.runs.rows, order)
    ensures forall id | id in order :: id in s.runs.rows
    ensures var runs := RowsOf(s.runs.rows, order);
      && (forall id | id in PlanIdsOf(runs) :: id in s.plans.rows)
      && forall i | 0 <= i < |runs| ::
           runs[i].data.state == Processed && RowsOf(s.plans.rows, PlanIdsOf(runs))[i].data.areaId == areaId
  {
    hide PlanIdsOf, RowsOf;
    assert forall id | id in order :: id in s.runs.rows;
    var runs := RowsOf(s.runs.rows, order);
    forall i | 0 <= i < |runs|
      ensures PlanIdsOf(runs)[i] in s.plans.rows && s.plans.rows[PlanIdsOf(runs)[i]].data.areaId == areaId
      ensures runs[i].data.state == Processed
    {
      assert SoundSource(s.runs.rows, s.plans.rows, areaId, order[i]);
    }
  }

  lemma HashDecides(s: System, id: nat, detect: DetectRequest, choice: Choice)
    requires Inv(s) && id in s.gaps.rows && IsAnswer(choice.order, detect.runIds, s.runs.rows)
    requires SoundGap(s.areas.rows, s.plans.rows, s.runs.rows, s.gaps.rows[id].data)
      && AsksFor(detect, s.gaps.rows[id].data)
    requires detect.areaId in s.areas.rows
    requires var runs := RowsOf(s.runs.rows, choice.order);
      && AllIn(PlanIdsOf(runs), s.plans.rows)
      && CheckedRuns(s, detect, s.areas.rows[detect.areaId], choice.order, runs, RowsOf(s.plans.rows, PlanIdsOf(runs)))
    ensures var area, runs := s.areas.rows[detect.areaId].data, DataOf(RowsOf(s.runs.rows, choice.order));
      var done := AfterCheckedDetection(s, detect, area, choice.order, runs, choice.newId);
      if SameInputs(detect, area, s.gaps.rows[id].data) then done == Answered(GapReply(s.gaps.rows[id], true), s)
      else done.reply != GapReply(s.gaps.rows[id], true)
  {
    hide Inv, SoundGap, CheckedRuns, Outcome, HashOf, UniqueGaps, NoDuplicates, ChosenResolution, AfterCheckedDetection,
        UniqueIds, PlanIdsOf, DataOf, RowsOf;
    var rows := RowsOf(s.runs.rows, choice.order);
    var plans := RowsOf(s.plans.rows, PlanIdsOf(rows));
    InvParts(s);
    HashesAgree(s, s.gaps.rows[id].data, detect, s.areas.rows[detect.areaId], choice.order, rows, plans);
    HitOrNot(s, id, detect, s.areas.rows[detect.areaId].data, choice.order, DataOf(rows), choice.newId);
  }

  /** A checked detection answers with a stored gap exactly when it has that gap's hash. */
  lemma HitOrNot(s: System, id: nat, detect: DetectRequest, area: Area, order: seq<nat>, runs: seq<Run>, newId: nat)
    requires UniqueGaps(s.gaps.rows) && id in s.gaps.rows && |order| == |runs|
    ensures var done := AfterCheckedDetection(s, detect, area, order, runs, newId);
      if s.gaps.rows[id].data.hash == HashOf(detect, area, runs) then
          done == Answered(GapReply(s.gaps.rows[id], true), s)
      else done.reply != GapReply(s.gaps.rows[id], true)
  {
    hide UniqueGaps, HashOf, Outcome, TracksOf, ChosenResolution, DetectedGap, HashTaken, GapWith;
    OnlyGapWith(s.gaps.rows, id);
    FoundHasTheHash(s.gaps.rows, HashOf(detect, area, runs));
  }

  lemma FoundHasTheHash(gaps: map<nat, Row<Gap>>, hash: InputHash)
    ensures HashTaken(gaps, hash) ==> GapWith(gaps, hash).data.hash == hash
  {
  }
}
