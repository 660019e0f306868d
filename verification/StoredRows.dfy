/** What follows for stored rows from where they come from. */
module StoredRows {
  import opened States
  import opened Checksums
  import opened Tables
  import opened Records
  import opened Evolution
  import opened Workflow
  import opened Invariant
  import opened Reachability
  import opened Origins
  import opened OriginSteps

  // ---------- Runs ----------

  /** The run still has every column of an import that has arrived, but for its state. */
  ghost predicate IsAsImported(run: Run, request: ImportRequest) {
    && run.planId == request.source.planId && run.code == request.code && run.lines == request.lines
    && run.swath == request.source.swath && run.quality == request.quality
    && request.source.swath > 0.0 && run.checksum == Payload(request.source)
    && request.source.startedAt < request.source.endedAt && UsableLines(request.lines)
  }

  lemma RunsAreAsImported(events: seq<Event>, id: nat) returns (request: ImportRequest)
    requires id in After(events).runs.rows
    ensures Asked(events, RunImport(request)) && IsAsImported(After(events).runs.rows[id].data, request)
  {
    hide Inv, Apply, LegalRuns, Asked, Payload, UsableLines;
    AlwaysSound(events);
    InvParts(After(events));
    AlwaysAsked(events);
    request := FirstRunWasAsked(events, After(events).runs, id);
  }

  lemma FirstRunWasAsked(events: seq<Event>, t: Table<Run>, id: nat) returns (request: ImportRequest)
    requires LegalRuns(t) && RunsAsked(events, t) && id in t.rows
    ensures Asked(events, RunImport(request)) && IsAsImported(t.rows[id].data, request)
  {
    hide Asked, Payload, UsableLines, RunEditAsked;
    EvolvesFromFirst(t.born[id], t.edits[id], t.rows[id], (a, b) => RunEvolves(a, b));
    assert RunAsked(events, t.born[id]);
    request :|
      && Asked(events, RunImport(request)) && UsableLines(request.lines)
      && request.source.startedAt < request.source.endedAt && request.source.swath > 0.0
      && t.born[id] == Row(1, Run(request.source.planId, request.code, request.lines, request.source.swath,
                                  request.quality, Imported, Payload(request.source)));
  }

  /** A run that was imported with invalid navigation stays imported or is rejected, and no gap ever rests on it. */
  lemma InvalidRunsGoNowhere(events: seq<Event>, id: nat) returns (request: ImportRequest)
    requires id in After(events).runs.rows
    ensures Asked(events, RunImport(request)) && IsAsImported(After(events).runs.rows[id].data, request)
    ensures request.quality == Invalid ==>
      && After(events).runs.rows[id].data.state in {Imported, Rejected}
      && forall gap | gap in After(events).gaps.rows :: id !in After(events).gaps.rows[gap].data.sourceRuns
  {
    hide Inv, Apply, Asked, Payload, UsableLines, OnLockedPlan, HashesItsRuns, Recomputes;
    request := RunsAreAsImported(events, id);
    RunsSitOnLockedPlans(events, id);
    forall gap | gap in After(events).gaps.rows
      ensures request.quality == Invalid ==> id !in After(events).gaps.rows[gap].data.sourceRuns
    {
      GapsRestOnSoundRuns(events, gap);
    }
  }

  // ---------- Areas, plans and reviews ----------

  /** The present boundary of every stored area is a proper one. */
  lemma StoredBoundariesAreProper(events: seq<Event>, id: nat)
    requires id in After(events).areas.rows
    ensures ProperBoundary(After(events).areas.rows[id].data.values.boundary)
  {
    hide Inv, Apply, ProperBoundary, LegalAreas;
    AlwaysSound(events);
    InvParts(After(events));
    AlwaysAsked(events);
    LastAreaIsProper(events, After(events).areas, id);
  }

  lemma LastAreaIsProper(events: seq<Event>, t: Table<Area>, id: nat)
    requires t.WellKept() && AreasAsked(events, t) && id in t.rows
    ensures ProperBoundary(t.rows[id].data.values.boundary)
  {
    hide ProperBoundary, Asked;
    var edits := t.edits[id];
    assert IsHistory(t.born[id], edits, t.rows[id]);
    if edits == [] {
      assert AreaAsked(events, t.born[id]);
    } else {
      assert AreaEditAsked(events, id, edits[|edits| - 1]);
    }
  }

  /** Every review in the history of a gap was asked for: its target state, its note, and the version it replaced. */
  lemma ReviewsWereAskedFor(events: seq<Event>, id: nat, i: nat)
    requires id in After(events).gaps.rows && id in After(events).gaps.edits && i < |After(events).gaps.edits[id]|
    ensures GapEditAsked(events, id, After(events).gaps.edits[id][i])
    ensures var e := After(events).gaps.edits[id][i];
      && e.before.data.explanation < e.after.data.explanation
      && e.after.data.explanation[|e.after.data.explanation| - |e.note|..] == e.note
  {
    hide Inv, Apply, GapEditAsked, LegalGaps;
    AlwaysSound(events);
    InvParts(After(events));
    AlwaysAsked(events);
    EditIsAStep(After(events).gaps, id, i);
    ReviewAppendsItsNote(After(events).gaps.edits[id][i]);
  }

  lemma EditIsAStep(t: Table<Gap>, id: nat, i: nat)
    requires LegalGaps(t) && id in t.edits && i < |t.edits[id]|
    ensures GapStep(t.edits[id][i])
  {
    hide GapStep;
  }
}
