/**
 Database tables under optimistic locking. Rows carry a version; next to the rows each table remembers, for the
 proofs only, how every row was created and every write it has received since.
 */
module Tables {

  datatype Row<R> = Row(version: nat, data: R)

  /** One committed conditional update, with the row it replaced. */
  datatype Edit<R> = Edit(before: Row<R>, after: Row<R>, note: string)

  datatype Table<R> = Table(rows: map<nat, Row<R>>, born: map<nat, Row<R>>, edits: map<nat, seq<Edit<R>>>) {

    function Insert(id: nat, row: Row<R>): Table<R> {
      Table(rows[id := row], born[id := row], edits[id := []])
    }

    /** Replace a row's data; its version goes up by one. */
    function Commit(id: nat, data: R, note: string): Table<R>
      requires id in rows && id in edits
    {
      var row := Row(rows[id].version + 1, data);
      Table(rows[id := row], born, edits[id := edits[id] + [Edit(rows[id], row, note)]])
    }

    ghost predicate WellKept() {
      && rows.Keys == born.Keys == edits.Keys
      && forall id | id in rows :: IsHistory(born[id], edits[id], rows[id])
    }
  }

  function EmptyTable<R>(): Table<R> {
    Table(map[], map[], map[])
  }

  /** The edits lead from the first row to the last, each raising the version by one. */
  ghost predicate IsHistory<R>(first: Row<R>, edits: seq<Edit<R>>, last: Row<R>) {
    if edits == [] then first == last
    else
      var e := edits[|edits| - 1];
      e.after == last && e.after.version == e.before.version + 1 && IsHistory(first, edits[..|edits| - 1], e.before)
  }

  lemma InsertKeeps<R>(t: Table<R>, id: nat, row: Row<R>)
    requires t.WellKept()
    ensures t.Insert(id, row).WellKept()
  {
  }

  /** After a commit the row has the old edits and one more; all other rows have the edits they had. */
  lemma EditsAfterCommit<R>(t: Table<R>, id: nat, data: R, note: string, k: nat, i: nat)
    requires id in t.rows && id in t.edits
    requires var later := t.Commit(id, data, note); k in later.edits && i < |later.edits[k]|
    ensures k in t.edits
    ensures var e := t.Commit(id, data, note).edits[k][i];
      if i < |t.edits[k]| then e == t.edits[k][i]
      else k == id && e == Edit(t.rows[id], Row(t.rows[id].version + 1, data), note)
  {
  }

  lemma CommitKeeps<R>(t: Table<R>, id: nat, data: R, note: string)
    requires t.WellKept() && id in t.rows
    ensures t.Commit(id, data, note).WellKept()
  {
    var e := t.Commit(id, data, note).edits[id];
    assert e[..|e| - 1] == t.edits[id];
  }

  // ---------- What histories say about versions ----------

  lemma {:induction false} VersionsCount<R>(first: Row<R>, edits: seq<Edit<R>>, last: Row<R>)
    requires IsHistory(first, edits, last)
    ensures last.version == first.version + |edits|
    ensures forall i | 0 <= i < |edits| :: edits[i].before.version == first.version + i
  {
    if edits != [] {
      VersionsCount(first, edits[..|edits| - 1], edits[|edits| - 1].before);
    }
  }

  lemma {:induction false} HistoryChains<R>(first: Row<R>, edits: seq<Edit<R>>, last: Row<R>)
    requires IsHistory(first, edits, last)
    ensures edits != [] ==> edits[0].before == first && edits[|edits| - 1].after == last
    ensures forall i | 0 < i < |edits| :: edits[i].before == edits[i - 1].after
  {
    if edits != [] {
      HistoryChains(first, edits[..|edits| - 1], edits[|edits| - 1].before);
    }
  }

  // ---------- Rows read at some earlier time ----------

  /** The row has been in the table under this id, now or before. */
  ghost predicate Seen<R>(t: Table<R>, id: nat, row: Row<R>) {
    && id in t.rows && id in t.edits
    && (row == t.rows[id] || exists i :: 0 <= i < |t.edits[id]| && t.edits[id][i].before == row)
  }

  /** A later table: no row is forgotten and histories only get longer. */
  ghost predicate Extends<R>(later: Table<R>, t: Table<R>) {
    forall id | id in t.rows && id in t.edits ::
      && id in later.rows && id in later.edits
      && (id in t.born ==> id in later.born && later.born[id] == t.born[id])
      && t.edits[id] <= later.edits[id]
      && (later.edits[id] == t.edits[id] ==> later.rows[id] == t.rows[id])
      && (|later.edits[id]| > |t.edits[id]| ==> later.edits[id][|t.edits[id]|].before == t.rows[id])
  }

  lemma ExtendsSelf<R>(t: Table<R>)
    ensures Extends(t, t)
  {
  }

  lemma ExtendsTransitively<R>(a: Table<R>, b: Table<R>, c: Table<R>)
    requires Extends(b, a) && Extends(c, b)
    ensures Extends(c, a)
  {
    forall id | id in a.rows && id in a.edits
      ensures id in c.rows && id in c.edits
      ensures id in a.born ==> id in c.born && c.born[id] == a.born[id]
      ensures a.edits[id] <= c.edits[id]
      ensures c.edits[id] == a.edits[id] ==> c.rows[id] == a.rows[id]
      ensures |c.edits[id]| > |a.edits[id]| ==> c.edits[id][|a.edits[id]|].before == a.rows[id]
    {
      assert a.edits[id] <= b.edits[id] <= c.edits[id];
    }
  }

  lemma ExtendsKeys<R>(later: Table<R>, t: Table<R>)
    requires t.WellKept() && Extends(later, t)
    ensures t.rows.Keys <= later.rows.Keys
  {
  }

  lemma StaysStored<R>(t: Table<R>, later: Table<R>, id: nat)
    requires id in t.rows && id in t.edits && Extends(later, t)
    ensures id in later.rows && id in later.edits
  {
  }

  lemma InsertExtends<R>(t: Table<R>, id: nat, row: Row<R>)
    requires id !in t.rows
    ensures Extends(t.Insert(id, row), t)
  {
  }

  lemma CommitExtends<R>(t: Table<R>, id: nat, data: R, note: string)
    requires id in t.rows && id in t.edits
    ensures Extends(t.Commit(id, data, note), t)
  {
  }

  lemma StaysSeen<R>(t: Table<R>, later: Table<R>, id: nat, row: Row<R>)
    requires Seen(t, id, row) && Extends(later, t)
    ensures Seen(later, id, row)
  {
    var n := |t.edits[id]|;
    if row == t.rows[id] {
      if later.edits[id] != t.edits[id] {
        assert later.edits[id][n].before == row;
      }
    } else {
      var i :| 0 <= i < n && t.edits[id][i].before == row;
      assert later.edits[id][i].before == row;
    }
  }

  /** A reflexive and transitive relation between the successive rows of one id. */
  ghost predicate IsEvolution<R(!new)>(evolves: (Row<R>, Row<R>) -> bool) {
    && (forall a :: evolves(a, a))
    && (forall a, b, c :: evolves(a, b) && evolves(b, c) ==> evolves(a, c))
  }

  ghost predicate EditsEvolve<R>(t: Table<R>, evolves: (Row<R>, Row<R>) -> bool) {
    forall id, i | id in t.edits && 0 <= i < |t.edits[id]| :: evolves(t.edits[id][i].before, t.edits[id][i].after)
  }

  lemma {:induction false} EvolvesToLast<R(!new)>(first: Row<R>, edits: seq<Edit<R>>, last: Row<R>, i: nat,
                                                 evolves: (Row<R>, Row<R>) -> bool)
    requires IsHistory(first, edits, last) && IsEvolution(evolves) && i < |edits|
    requires forall k | 0 <= k < |edits| :: evolves(edits[k].before, edits[k].after)
    ensures evolves(edits[i].before, last)
  {
    var n := |edits| - 1;
    if i < n {
      EvolvesToLast(first, edits[..n], edits[n].before, i, evolves);
    }
  }

  /** Whatever was read earlier has evolved into the present row. */
  lemma SeenEvolves<R(!new)>(t: Table<R>, id: nat, row: Row<R>, evolves: (Row<R>, Row<R>) -> bool)
    requires t.WellKept() && Seen(t, id, row) && IsEvolution(evolves) && EditsEvolve(t, evolves)
    ensures evolves(row, t.rows[id])
  {
    if row != t.rows[id] {
      var i :| 0 <= i < |t.edits[id]| && t.edits[id][i].before == row;
      EvolvesToLast(t.born[id], t.edits[id], t.rows[id], i, evolves);
    }
  }

  lemma {:induction false} EvolvesFromFirst<R(!new)>(first: Row<R>, edits: seq<Edit<R>>, last: Row<R>,
                                                    evolves: (Row<R>, Row<R>) -> bool)
    requires IsHistory(first, edits, last) && IsEvolution(evolves)
    requires forall k | 0 <= k < |edits| :: evolves(edits[k].before, edits[k].after)
    ensures evolves(first, last)
  {
    if edits != [] {
      HistoryChains(first, edits, last);
      EvolvesToLast(first, edits, last, 0, evolves);
    }
  }
}
