/** What successive versions of a row may differ in, and what a row read earlier says about the present one. */
module Evolution {
  import opened States
  import opened Tables
  import opened Records

  // ---------- One edit ----------

  ghost predicate RunStep(e: Edit<Run>) {
    var a, b := e.before.data, e.after.data;
    && e.after.version == e.before.version + 1
    && a.state.CanTransition(b.state)
    && b == a.(state := b.state)
    && (b.state == QualityChecked ==> a.quality != Invalid)
  }

  ghost predicate GapStep(e: Edit<Gap>) {
    var a, b := e.before.data, e.after.data;
    && e.after.version == e.before.version + 1
    && a.state.CanTransition(b.state)
    && b == a.(state := b.state, explanation := Annotated(a.explanation, e.note))
  }

  ghost predicate PlanStep(e: Edit<Plan>) {
    var a, b := e.before.data, e.after.data;
    && e.after.version == e.before.version + 1
    && a.areaId == b.areaId
    && (a.state == b.state || (a.state == PlanDraft && b == a.(state := PlanLocked)))
  }

  ghost predicate AreaStep(e: Edit<Area>) {
    e.after.version == e.before.version + 1 && e.after.data.code == e.before.data.code
  }

  // ---------- Many edits ----------

  ghost predicate Later<R>(a: Row<R>, b: Row<R>) {
    a.version <= b.version && (a.version == b.version ==> a == b)
  }

  /** A run keeps all but its state, and its state climbs at least one rank per version. */
  ghost predicate RunEvolves(a: Row<Run>, b: Row<Run>) {
    && Later(a, b)
    && b.data == a.data.(state := b.data.state)
    && b.data.state.Rank() - a.data.state.Rank() >= b.version - a.version
    && (a.data.state in {Processed, Superseded} ==> b.data.state in {Processed, Superseded})
  }

  ghost predicate GapEvolves(a: Row<Gap>, b: Row<Gap>) {
    && Later(a, b)
    && b.data == a.data.(state := b.data.state, explanation := b.data.explanation)
    && b.data.state.Rank() - a.data.state.Rank() >= b.version - a.version
  }

  ghost predicate PlanEvolves(a: Row<Plan>, b: Row<Plan>) {
    && Later(a, b)
    && a.data.areaId == b.data.areaId
    && (a.data.state == PlanLocked ==> b.data.state == PlanLocked)
  }

  ghost predicate AreaEvolves(a: Row<Area>, b: Row<Area>) {
    Later(a, b) && a.data.code == b.data.code
  }

  // ---------- Tables whose edits are all legal ----------

  ghost predicate LegalRuns(t: Table<Run>) {
    t.WellKept() && forall id, i | id in t.edits && 0 <= i < |t.edits[id]| :: RunStep(t.edits[id][i])
  }

  ghost predicate LegalGaps(t: Table<Gap>) {
    t.WellKept() && forall id, i | id in t.edits && 0 <= i < |t.edits[id]| :: GapStep(t.edits[id][i])
  }

  ghost predicate LegalPlans(t: Table<Plan>) {
    t.WellKept() && forall id, i | id in t.edits && 0 <= i < |t.edits[id]| :: PlanStep(t.edits[id][i])
  }

  ghost predicate LegalAreas(t: Table<Area>) {
    t.WellKept() && forall id, i | id in t.edits && 0 <= i < |t.edits[id]| :: AreaStep(t.edits[id][i])
  }

  lemma SeenRun(t: Table<Run>, id: nat, row: Row<Run>)
    requires LegalRuns(t) && Seen(t, id, row)
    ensures RunEvolves(row, t.rows[id])
  {
    SeenEvolves(t, id, row, (a, b) => RunEvolves(a, b));
  }

  lemma SeenGap(t: Table<Gap>, id: nat, row: Row<Gap>)
    requires LegalGaps(t) && Seen(t, id, row)
    ensures GapEvolves(row, t.rows[id])
  {
    SeenEvolves(t, id, row, (a, b) => GapEvolves(a, b));
  }

  lemma SeenPlan(t: Table<Plan>, id: nat, row: Row<Plan>)
    requires LegalPlans(t) && Seen(t, id, row)
    ensures PlanEvolves(row, t.rows[id])
  {
    SeenEvolves(t, id, row, (a, b) => PlanEvolves(a, b));
  }

  lemma SeenArea(t: Table<Area>, id: nat, row: Row<Area>)
    requires LegalAreas(t) && Seen(t, id, row)
    ensures AreaEvolves(row, t.rows[id])
  {
    SeenEvolves(t, id, row, (a, b) => AreaEvolves(a, b));
  }

  /** No ABA: a run or gap found in the state in which it was read has not been written since. */
  lemma SameStateSameRow(runs: Table<Run>, gaps: Table<Gap>)
    requires LegalRuns(runs) && LegalGaps(gaps)
    ensures forall id, row | Seen(runs, id, row) && runs.rows[id].data.state == row.data.state :: runs.rows[id] == row
    ensures forall id, row | Seen(gaps, id, row) && gaps.rows[id].data.state == row.data.state :: gaps.rows[id] == row
  {
    forall id, row | Seen(runs, id, row) && runs.rows[id].data.state == row.data.state
      ensures runs.rows[id] == row
    {
      SeenRun(runs, id, row);
    }
    forall id, row | Seen(gaps, id, row) && gaps.rows[id].data.state == row.data.state
      ensures gaps.rows[id] == row
    {
      SeenGap(gaps, id, row);
    }
  }

  // ---------- Legal changes keep tables legal ----------

  lemma CommitRun(t: Table<Run>, id: nat, data: Run, note: string)
    requires LegalRuns(t) && id in t.rows && RunStep(Edit(t.rows[id], Row(t.rows[id].version + 1, data), note))
    ensures LegalRuns(t.Commit(id, data, note)) && Extends(t.Commit(id, data, note), t)
  {
    hide RunStep, Table.Commit, IsHistory, Extends;
    CommitKeeps(t, id, data, note);
    CommitExtends(t, id, data, note);
    var later := t.Commit(id, data, note);
    forall k, i | k in later.edits && 0 <= i < |later.edits[k]|
      ensures RunStep(later.edits[k][i])
    {
      EditsAfterCommit(t, id, data, note, k, i);
    }
  }

  lemma CommitGap(t: Table<Gap>, id: nat, data: Gap, note: string)
    requires LegalGaps(t) && id in t.rows && GapStep(Edit(t.rows[id], Row(t.rows[id].version + 1, data), note))
    ensures LegalGaps(t.Commit(id, data, note)) && Extends(t.Commit(id, data, note), t)
  {
    hide GapStep, Table.Commit, IsHistory, Extends;
    CommitKeeps(t, id, data, note);
    CommitExtends(t, id, data, note);
    var later := t.Commit(id, data, note);
    forall k, i | k in later.edits && 0 <= i < |later.edits[k]|
      ensures GapStep(later.edits[k][i])
    {
      EditsAfterCommit(t, id, data, note, k, i);
    }
  }

  lemma CommitPlan(t: Table<Plan>, id: nat, data: Plan, note: string)
    requires LegalPlans(t) && id in t.rows && PlanStep(Edit(t.rows[id], Row(t.rows[id].version + 1, data), note))
    ensures LegalPlans(t.Commit(id, data, note)) && Extends(t.Commit(id, data, note), t)
  {
    hide PlanStep, Table.Commit, IsHistory, Extends;
    CommitKeeps(t, id, data, note);
    CommitExtends(t, id, data, note);
    var later := t.Commit(id, data, note);
    forall k, i | k in later.edits && 0 <= i < |later.edits[k]|
      ensures PlanStep(later.edits[k][i])
    {
      EditsAfterCommit(t, id, data, note, k, i);
    }
  }

  lemma CommitArea(t: Table<Area>, id: nat, data: Area, note: string)
    requires LegalAreas(t) && id in t.rows && AreaStep(Edit(t.rows[id], Row(t.rows[id].version + 1, data), note))
    ensures LegalAreas(t.Commit(id, data, note)) && Extends(t.Commit(id, data, note), t)
  {
    hide AreaStep, Table.Commit, IsHistory, Extends;
    CommitKeeps(t, id, data, note);
    CommitExtends(t, id, data, note);
    var later := t.Commit(id, data, note);
    forall k, i | k in later.edits && 0 <= i < |later.edits[k]|
      ensures AreaStep(later.edits[k][i])
    {
      EditsAfterCommit(t, id, data, note, k, i);
    }
  }

  // ---------- Whole histories ----------

  /** The notes of a gap's reviews, in the order in which they were committed. */
  function NotesOf(edits: seq<Edit<Gap>>): seq<string> {
    if edits == [] then [] else NotesOf(edits[..|edits| - 1]) + [edits[|edits| - 1].note]
  }

  /** What reviews write: before each note a mark, one after the other. */
  function ReviewLog(notes: seq<string>): string {
    if notes == [] then ""
    else ReviewLog(notes[..|notes| - 1]) + " 复核记录：" + notes[|notes| - 1]
  }

  lemma Regroup(text: string, log: string, mark: string, note: string)
    ensures (text + log) + mark + note == text + (log + mark + note)
  {
  }

  lemma {:induction false} ExplanationIsAllNotes(first: Row<Gap>, edits: seq<Edit<Gap>>, last: Row<Gap>)
    requires IsHistory(first, edits, last)
    requires forall i | 0 <= i < |edits| :: GapStep(edits[i])
    ensures last.data.explanation == first.data.explanation + ReviewLog(NotesOf(edits))
  {
    hide GapStep;
    if edits != [] {
      var n := |edits| - 1;
      ExplanationIsAllNotes(first, edits[..n], edits[n].before);
      ReviewAppendsItsNote(edits[n]);
      assert NotesOf(edits)[..|NotesOf(edits)| - 1] == NotesOf(edits[..n]);
      Regroup(first.data.explanation, ReviewLog(NotesOf(edits[..n])), " 复核记录：", edits[n].note);
    }
  }

  /** A review adds a mark and its note: the text it replaces is a proper beginning of the new one, which ends so. */
  lemma ReviewAppendsItsNote(e: Edit<Gap>)
    requires GapStep(e)
    ensures e.after.data.explanation == e.before.data.explanation + " 复核记录：" + e.note
    ensures e.before.data.explanation < e.after.data.explanation
    ensures e.after.data.explanation[|e.after.data.explanation| - |e.note|..] == e.note
  {
    var (text, mark, note) := (e.before.data.explanation, " 复核记录：", e.note);
    assert e.after.data.explanation == text + (mark + note);
    assert (text + mark + note)[|text + mark|..] == note;
  }

  lemma {:induction false} RunHistoryIsShort(first: Row<Run>, edits: seq<Edit<Run>>, last: Row<Run>)
    requires IsHistory(first, edits, last)
    requires forall i | 0 <= i < |edits| :: RunStep(edits[i])
    ensures first.data.state.Rank() + |edits| <= last.data.state.Rank() <= 4
  {
    if edits != [] {
      RunHistoryIsShort(first, edits[..|edits| - 1], edits[|edits| - 1].before);
    }
  }

  lemma {:induction false} GapHistoryIsShort(first: Row<Gap>, edits: seq<Edit<Gap>>, last: Row<Gap>)
    requires IsHistory(first, edits, last)
    requires forall i | 0 <= i < |edits| :: GapStep(edits[i])
    ensures first.data.state.Rank() + |edits| <= last.data.state.Rank() <= 4
  {
    if edits != [] {
      GapHistoryIsShort(first, edits[..|edits| - 1], edits[|edits| - 1].before);
    }
  }
}
