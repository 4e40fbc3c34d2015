/** Submitting the pending changes of a page: the statements built from them, run
    in one transaction, store exactly the rows EditorGrid says are written, and
    touch no row that was never on the page. */
module EditorSubmit {
  import opened Base
  import opened SqlText
  import opened SqlReader
  import opened SqlEval
  import opened Mutate
  import opened ReadBack
  import opened SqlRun
  import opened Editor
  import opened EditorGrid
  import opened EditorWrites
  import opened EditorPage
  import opened Gate
  import opened BuiltEdits
  import opened Submit

  // ----- the rest of the table -----

  /** A table with the loaded rows between others. */
  function Within(before: Table, rows: Table, after: Table): Table {
    before + rows + after
  }

  /** None of these rows is addressed by a loaded row's key. */
  ghost predicate Elsewhere(g: Grid, rows: Table)
    requires Loaded(g)
  {
    Keyed(g) ==> forall i, j | 0 <= i < |rows| && 0 <= j < |g.rows| :: Eval(KeyCond(g, j), rows[i]) != True
  }

  lemma {:induction false} Apart(a: Table, b: Table, sets: seq<(string, Value)>, where: Expr)
    ensures Updated(a + b, sets, where) == Updated(a, sets, where) + Updated(b, sets, where)
    ensures Without(a + b, where) == Without(a, where) + Without(b, where)
    ensures Matches(a + b, where) == Matches(a, where) + Matches(b, where)
  {
    hide *;
    if b == [] {
      EmptyTable(sets, where);
      assert a + b == a;
    } else {
      var init, x := b[..|b| - 1], b[|b| - 1];
      Apart(a, init, sets, where);
      assert b == init + [x] && a + b == (a + init) + [x];
      FilterSnoc(a + init, x, sets, where);
      FilterSnoc(init, x, sets, where);
    }
  }

  lemma {:induction false} Unmatched(rows: Table, sets: seq<(string, Value)>, where: Expr)
    requires forall i | 0 <= i < |rows| :: Eval(where, rows[i]) != True
    ensures Updated(rows, sets, where) == Without(rows, where) == rows && Matches(rows, where) == 0
  {
    hide Eval, Assigned;
    if rows != [] { Unmatched(rows[..|rows| - 1], sets, where); }
  }

  /** A statement that addresses a loaded row leaves the rows never loaded alone. */
  lemma OnlyThePage(g: Grid, before: Table, rows: Table, after: Table, sets: seq<(string, Value)>, j: nat)
    requires Loaded(g) && Keyed(g) && Elsewhere(g, before) && Elsewhere(g, after) && j < |g.rows|
    ensures Updated(Within(before, rows, after), sets, KeyCond(g, j)) == Within(before, Updated(rows, sets, KeyCond(g, j)), after)
    ensures Without(Within(before, rows, after), KeyCond(g, j)) == Within(before, Without(rows, KeyCond(g, j)), after)
    ensures Matches(Within(before, rows, after), KeyCond(g, j)) == Matches(rows, KeyCond(g, j))
  {
    hide Loaded, KeyCond, Eval, Updated, Without, Matches;
    Unmatched(before, sets, KeyCond(g, j));
    Unmatched(after, sets, KeyCond(g, j));
    Apart(before, rows, sets, KeyCond(g, j));
    Apart(before + rows, after, sets, KeyCond(g, j));
  }

  // ----- the whole change set -----

  lemma UpdateEffect(fill: Table -> Row, rows: Table, shape: TableShape, pk: Fields, sets: Fields)
    requires var ch := RowChange("update", pk, sets, map[]); Valid(shape, ch) && shape.primaryKey != []
    ensures Effect(fill, rows, Intent("", "", shape, RowChange("update", pk, sets, map[])))
            == (Updated(rows, Pairs(Keys(sets), sets), KeyExpr(shape.primaryKey, pk)), Matches(rows, KeyExpr(shape.primaryKey, pk)))
  {
    hide Updated, Matches, Pairs, Keys, KeyExpr, IsIdent;
  }

  lemma DeleteEffect(fill: Table -> Row, rows: Table, shape: TableShape, pk: Fields)
    requires var ch := RowChange("delete", pk, map[], map[]); Valid(shape, ch) && shape.primaryKey != []
    ensures Effect(fill, rows, Intent("", "", shape, RowChange("delete", pk, map[], map[])))
            == (Without(rows, KeyExpr(shape.primaryKey, pk)), Matches(rows, KeyExpr(shape.primaryKey, pk)))
  {
    hide Without, Matches, KeyExpr, IsIdent;
  }

  /** An edit that yields no update changes nothing. */
  lemma {:induction false} DeadEdit(g: Grid, st: State, n: nat, applied: seq<string>, key: string)
    requires Loaded(g) && n <= |g.rows| && !Live(st, key)
    ensures Written(g, st, n, applied + [key], []) == Written(g, st, n, applied, [])
  {
    hide Loaded, KeyAt, DbRow, Live;
    if n > 0 { DeadEdit(g, st, n - 1, applied, key); }
  }

  lemma EditRow(g: Grid, st: State, key: string) returns (j: nat)
    requires Loaded(g) && Tracks(g, st) && key in st.edits && Live(st, key)
    ensures j < |g.rows| && KeyAt(g, j) == key && st.edits[key].pk == PkFor(g.rows[j], g.pkCols)
  {
    hide Loaded, KeyAt, PkFor, Inherited;
    assert IsEdit(g, key, st.edits[key]);
    j :| EditOf(g, key, st.edits[key], j);
  }

  lemma DeleteRow(g: Grid, st: State, key: string) returns (j: nat)
    requires Loaded(g) && Tracks(g, st) && key in st.deletes
    ensures j < |g.rows| && KeyAt(g, j) == key && st.deletes[key] == PkFor(g.rows[j], g.pkCols)
  {
    hide Loaded, KeyAt, PkFor, Inherited;
    assert IsDelete(g, key, st.deletes[key]);
    j :| DeleteOf(g, key, st.deletes[key], j);
  }

  ghost predicate Distinct(keys: seq<string>) {
    forall i, j | 0 <= i < j < |keys| :: keys[i] != keys[j]
  }

  lemma DistinctSnoc(keys: seq<string>)
    requires Distinct(keys) && keys != []
    ensures var init, last := keys[..|keys| - 1], keys[|keys| - 1];
            Distinct(init) && last !in init && keys == init + [last] && last in keys && forall k | k in init :: k in keys
  {
  }

  lemma UpdatesSnoc(st: State, keys: seq<string>)
    requires keys != [] && forall k | k in keys :: k in st.edits
    ensures var init, last := keys[..|keys| - 1], keys[|keys| - 1];
            && last in st.edits && (forall k | k in init :: k in st.edits)
            && UpdatesIn(st, keys) == if Live(st, last)
                 then UpdatesIn(st, init) + [RowChange("update", st.edits[last].pk, st.edits[last].sets, map[])]
                 else UpdatesIn(st, init)
  {
    hide Live;
  }

  lemma DeletesSnoc(st: State, keys: seq<string>)
    requires keys != [] && forall k | k in keys :: k in st.deletes
    ensures var init, last := keys[..|keys| - 1], keys[|keys| - 1];
            && last in st.deletes && (forall k | k in init :: k in st.deletes)
            && DeletesIn(st, keys) == DeletesIn(st, init) + [RowChange("delete", st.deletes[last], map[], map[])]
  {
  }

  lemma NoChanges(st: State)
    ensures UpdatesIn(st, []) == [] && DeletesIn(st, []) == []
  {
  }

  lemma {:induction false} UpdatesWrite(g: Grid, st: State, shape: TableShape, keys: seq<string>, fill: Table -> Row,
                                        before: Table, after: Table)
    requires Loaded(g) && Keyed(g) && Tracks(g, st) && shape.primaryKey == g.pkCols && Distinct(keys)
    requires (forall k | k in keys :: k in st.edits) && AllValid(shape, UpdatesIn(st, keys))
    requires Elsewhere(g, before) && Elsewhere(g, after)
    ensures Effects(fill, Within(before, Written(g, st, |g.rows|, [], []), after), shape, UpdatesIn(st, keys))
            == (Within(before, Written(g, st, |g.rows|, keys, []), after), |UpdatesIn(st, keys)|)
  {
    hide *;
    var start := Within(before, Written(g, st, |g.rows|, [], []), after);
    if keys == [] {
      NoChanges(st);
      EffectsNone(fill, start, shape);
    } else {
      var init, last := keys[..|keys| - 1], keys[|keys| - 1];
      DistinctSnoc(keys);
      UpdatesSnoc(st, keys);
      if Live(st, last) {
        var ch := RowChange("update", st.edits[last].pk, st.edits[last].sets, map[]);
        ValidParts(shape, UpdatesIn(st, init), [ch]);
        ValidOne(shape, ch);
        UpdatesWrite(g, st, shape, init, fill, before, after);
        EffectsSnoc(fill, start, shape, UpdatesIn(st, init), ch);
        var j := EditRow(g, st, last);
        NonEmptyKey(g, shape);
        UpdateEffect(fill, Within(before, Written(g, st, |g.rows|, init, []), after), shape, ch.pk, ch.sets);
        OnlyThePage(g, before, Written(g, st, |g.rows|, init, []), after, Pairs(Keys(ch.sets), ch.sets), j);
        UpdatePatches(g, st, |g.rows|, init, j);
        KeyCondIs(g, j);
      } else {
        UpdatesWrite(g, st, shape, init, fill, before, after);
        DeadEdit(g, st, |g.rows|, init, last);
      }
    }
  }

  lemma NonEmptyKey(g: Grid, shape: TableShape)
    requires Loaded(g) && shape.primaryKey == g.pkCols
    ensures shape.primaryKey != []
  {
  }

  lemma KeyCondIs(g: Grid, j: nat)
    requires Loaded(g) && Keyed(g) && j < |g.rows|
    ensures var pk := PkFor(g.rows[j], g.pkCols);
            g.pkCols != [] && (forall c | c in g.pkCols :: c in pk && !pk[c].Null?) && KeyCond(g, j) == KeyExpr(g.pkCols, pk)
  {
  }

  lemma {:induction false} DeletesWrite(g: Grid, st: State, shape: TableShape, applied: seq<string>, keys: seq<string>, fill: Table -> Row,
                                        before: Table, after: Table)
    requires Loaded(g) && Keyed(g) && Tracks(g, st) && shape.primaryKey == g.pkCols && Distinct(keys)
    requires (forall k | k in keys :: k in st.deletes) && AllValid(shape, DeletesIn(st, keys))
    requires Elsewhere(g, before) && Elsewhere(g, after)
    ensures Effects(fill, Within(before, Written(g, st, |g.rows|, applied, []), after), shape, DeletesIn(st, keys))
            == (Within(before, Written(g, st, |g.rows|, applied, keys), after), |DeletesIn(st, keys)|)
  {
    hide *;
    var start := Within(before, Written(g, st, |g.rows|, applied, []), after);
    if keys == [] {
      NoChanges(st);
      EffectsNone(fill, start, shape);
    } else {
      var init, last := keys[..|keys| - 1], keys[|keys| - 1];
      DistinctSnoc(keys);
      DeletesSnoc(st, keys);
      var ch := RowChange("delete", st.deletes[last], map[], map[]);
      ValidParts(shape, DeletesIn(st, init), [ch]);
      ValidOne(shape, ch);
      DeletesWrite(g, st, shape, applied, init, fill, before, after);
      EffectsSnoc(fill, start, shape, DeletesIn(st, init), ch);
      var j := DeleteRow(g, st, last);
      NonEmptyKey(g, shape);
      DeleteEffect(fill, Within(before, Written(g, st, |g.rows|, applied, init), after), shape, ch.pk);
      OnlyThePage(g, before, Written(g, st, |g.rows|, applied, init), after, [], j);
      DeleteRemoves(g, st, |g.rows|, applied, init, j);
      KeyCondIs(g, j);
    }
  }

  /** The rows as loaded. */
  ghost function LoadedRows(g: Grid): Table {
    seq(|g.rows|, i requires 0 <= i < |g.rows| => DbRow(g.rows[i]))
  }

  lemma {:induction false} NothingWritten(g: Grid, st: State, n: nat)
    requires Loaded(g) && n <= |g.rows|
    ensures Written(g, st, n, [], []) == LoadedRows(g)[..n]
  {
    hide Loaded, KeyAt, DbRow;
    if n > 0 { NothingWritten(g, st, n - 1); }
  }

  /** With no edit or mark pending every loaded row stays as it is. */
  lemma {:induction false} NothingPending(g: Grid, st: State, n: nat, editKeys: seq<string>, deleteKeys: seq<string>)
    requires Loaded(g) && n <= |g.rows| && !RowChanges(st) && Lists(editKeys, st.edits) && Lists(deleteKeys, st.deletes)
    ensures Written(g, st, n, editKeys, deleteKeys) == LoadedRows(g)[..n]
    ensures UpdatesIn(st, editKeys) == [] && DeletesIn(st, deleteKeys) == []
  {
    hide Loaded, KeyAt, DbRow, Live, Outcome;
    if n > 0 {
      NothingPending(g, st, n - 1, editKeys, deleteKeys);
      assert !Pending(st, KeyAt(g, n - 1));
      KeptIff(g, st, n - 1, editKeys, deleteKeys);
    } else {
      NoUpdates(st, editKeys);
      MarkIsPending(st, deleteKeys);
    }
  }

  lemma MarkIsPending(st: State, keys: seq<string>)
    requires forall k | k in keys :: k in st.deletes
    ensures keys != [] ==> RowChanges(st)
  {
    if keys != [] { assert Pending(st, keys[0]); }
  }

  lemma {:induction false} NoUpdates(st: State, keys: seq<string>)
    requires !RowChanges(st) && forall k | k in keys :: k in st.edits
    ensures UpdatesIn(st, keys) == []
  {
    hide Live;
    if keys != [] {
      NoUpdates(st, keys[..|keys| - 1]);
      assert !Pending(st, keys[|keys| - 1]);
    }
  }

  /** The table once the changes are stored: edits applied and deleted rows gone,
      the rows never loaded unchanged, and the non-empty drafts added. */
  ghost function Overlay(g: Grid, st: State, editKeys: seq<string>, deleteKeys: seq<string>, fill: Table -> Row,
                         before: Table, after: Table): Table
    requires Loaded(g)
  {
    WithDrafts(fill, Within(before, Written(g, st, |g.rows|, editKeys, deleteKeys), after), st.drafts)
  }

  /** What the updates and deletes leave. */
  lemma RowChangesWrite(g: Grid, st: State, editKeys: seq<string>, deleteKeys: seq<string>, fill: Table -> Row, before: Table, after: Table)
    requires Loaded(g) && Tracks(g, st) && Lists(editKeys, st.edits) && Lists(deleteKeys, st.deletes)
    requires Elsewhere(g, before) && Elsewhere(g, after)
    requires RowChanges(st) ==> Keyed(g)
    requires AllValid(Shape(g), UpdatesIn(st, editKeys) + DeletesIn(st, deleteKeys))
    ensures var chs := UpdatesIn(st, editKeys) + DeletesIn(st, deleteKeys);
            Effects(fill, Within(before, LoadedRows(g), after), Shape(g), chs)
            == (Within(before, Written(g, st, |g.rows|, editKeys, deleteKeys), after), |chs|)
  {
    hide Loaded, Tracks, AllValid, Effects, Written, UpdatesIn, DeletesIn, LoadedRows, Within, Elsewhere, RowChanges, Keyed;
    var ups, dels := UpdatesIn(st, editKeys), DeletesIn(st, deleteKeys);
    var start := Within(before, LoadedRows(g), after);
    assert LoadedRows(g)[..|g.rows|] == LoadedRows(g) by { RowCount(g); }
    ValidParts(Shape(g), ups, dels);
    if RowChanges(st) {
      NothingWritten(g, st, |g.rows|);
      UpdatesWrite(g, st, Shape(g), editKeys, fill, before, after);
      DeletesWrite(g, st, Shape(g), editKeys, deleteKeys, fill, before, after);
      EffectsAppend(fill, start, Shape(g), ups, dels);
    } else {
      NothingPending(g, st, |g.rows|, editKeys, deleteKeys);
      EffectsNone(fill, start, Shape(g));
    }
  }

  lemma ChangesWrite(g: Grid, st: State, editKeys: seq<string>, deleteKeys: seq<string>, fill: Table -> Row, before: Table, after: Table)
    requires Loaded(g) && Tracks(g, st) && NamesFit(g, st)
    requires Lists(editKeys, st.edits) && Lists(deleteKeys, st.deletes)
    requires Elsewhere(g, before) && Elsewhere(g, after)
    ensures AllValid(Shape(g), Changes(st, editKeys, deleteKeys))
    ensures Effects(fill, Within(before, LoadedRows(g), after), Shape(g), Changes(st, editKeys, deleteKeys))
            == (Overlay(g, st, editKeys, deleteKeys, fill, before, after), |Changes(st, editKeys, deleteKeys)|)
  {
    hide *;
    ChangeParts(g, st, editKeys, deleteKeys, fill, before, after);
    AllValidIff(g, st, editKeys, deleteKeys);
    var rows, ins := UpdatesIn(st, editKeys) + DeletesIn(st, deleteKeys), InsertsIn(st.drafts);
    ValidParts(Shape(g), rows, ins);
    RowChangesWrite(g, st, editKeys, deleteKeys, fill, before, after);
    EffectsAppend(fill, Within(before, LoadedRows(g), after), Shape(g), rows, ins);
    InsertsWrite(fill, Within(before, Written(g, st, |g.rows|, editKeys, deleteKeys), after), Shape(g), st.drafts);
  }

  lemma ChangeParts(g: Grid, st: State, editKeys: seq<string>, deleteKeys: seq<string>, fill: Table -> Row, before: Table, after: Table)
    requires Loaded(g) && NamesFit(g, st) && Lists(editKeys, st.edits) && Lists(deleteKeys, st.deletes)
    ensures (forall k | k in editKeys :: k in st.edits) && (forall k | k in deleteKeys :: k in st.deletes)
    ensures RowChanges(st) ==> Keyed(g)
    ensures Changes(st, editKeys, deleteKeys) == UpdatesIn(st, editKeys) + DeletesIn(st, deleteKeys) + InsertsIn(st.drafts)
    ensures Overlay(g, st, editKeys, deleteKeys, fill, before, after)
            == WithDrafts(fill, Within(before, Written(g, st, |g.rows|, editKeys, deleteKeys), after), st.drafts)
  {
    hide Loaded, UpdatesIn, DeletesIn, InsertsIn, WithDrafts, Within, Written, RowChanges, Keyed, IsIdent;
  }

  lemma RowCount(g: Grid)
    ensures |LoadedRows(g)| == |g.rows|
  {
  }

  // ----- counting -----

  lemma {:induction false} LiveCount(st: State, keys: seq<string>)
    requires Distinct(keys) && forall k | k in keys :: k in st.edits
    ensures |UpdatesIn(st, keys)| == |set k | k in keys && Live(st, k)|
  {
    hide Live;
    if keys == [] {
      assert (set k | k in keys && Live(st, k)) == {};
    } else {
      var init, last := keys[..|keys| - 1], keys[|keys| - 1];
      DistinctSnoc(keys);
      LiveCount(st, init);
      var before := set k | k in init && Live(st, k);
      assert (set k | k in keys && Live(st, k)) == if Live(st, last) then before + {last} else before;
    }
  }

  lemma {:induction false} KeyCount(keys: seq<string>)
    requires Distinct(keys)
    ensures |keys| == |set k | k in keys|
  {
    if keys == [] {
      assert (set k | k in keys) == {};
    } else {
      var init, last := keys[..|keys| - 1], keys[|keys| - 1];
      DistinctSnoc(keys);
      KeyCount(init);
      assert (set k | k in keys) == (set k | k in init) + {last};
    }
  }

  lemma {:induction false} DraftCount(ds: seq<DraftRow>)
    ensures |InsertsIn(ds)| == |set i | 0 <= i < |ds| && ds[i].values != map[]|
  {
    if ds != [] {
      var init, last := ds[..|ds| - 1], ds[|ds| - 1];
      DraftCount(init);
      var before := set i | 0 <= i < |init| && init[i].values != map[];
      assert (set i | 0 <= i < |ds| && ds[i].values != map[]) == if last.values == map[] then before else before + {|init|};
    }
  }

  /** The number beside the submit button is the number of changes submitted. */
  lemma DirtyCountsChanges(st: State, editKeys: seq<string>, deleteKeys: seq<string>)
    requires Lists(editKeys, st.edits) && Lists(deleteKeys, st.deletes)
    ensures |Changes(st, editKeys, deleteKeys)| == DirtyCount(st)
  {
    hide Live, UpdatesIn, InsertsIn;
    LiveCount(st, editKeys);
    assert (set k | k in editKeys && Live(st, k)) == set k | k in st.edits && Live(st, k);
    KeyCount(deleteKeys);
    assert (set k | k in deleteKeys) == st.deletes.Keys;
    DraftCount(st.drafts);
  }

  /** After a reset nothing is pending, and drafts get numbers never used before. */
  lemma ResetClears(st: State)
    ensures DirtyCount(Reset(st)) == 0 && AddDraft(Reset(st)).drafts == [DraftRow(st.nextDraftId, map[])]
  {
    hide DirtyCount;
    DirtyCountsChanges(Reset(st), [], []);
  }

  // ----- submitting -----

  /** The statements the changes are rendered as. */
  ghost function Texts(schema: string, name: string, shape: TableShape, chs: seq<RowChange>): (r: seq<string>)
    requires forall i | 0 <= i < |chs| :: Valid(shape, chs[i])
  {
    seq(|chs|, i requires 0 <= i < |chs| => StatementText(TableText(schema, name), shape, chs[i]))
  }

  /** Submitting works: there is nothing to do; or every statement can be built,
      passes the gate, and is accepted, and the transaction commits. */
  ghost predicate GoesThrough(server: Server, db: Db, schema: string, name: string, shape: TableShape, chs: seq<RowChange>,
                              tag: string, confirm: bool, readOnly: bool, openOk: bool, beginOk: bool, commitOk: bool)
  {
    || chs == []
    || (&& Buildable(schema, name, shape, chs)
        && var texts := Texts(schema, name, shape, chs);
           && LetsThrough(tag, readOnly, confirm, texts)
           && openOk && beginOk && commitOk && RunAll(server, db, texts).Some?)
  }

  /** Every way of submitting, from every run of the editor: it succeeds exactly
      when it goes through, and then the table holds exactly the overlay, rows
      never loaded and other tables are as before, and the rows affected are as
      many as the count shown; otherwise nothing has changed. The statements can
      be built and the page tells all they do exactly when PageIsTrueIff says. */
  method SubmitChanges(pool: Pool, schema: string, name: string, g: Grid, ghost evs: seq<Event>, st: State,
                       editKeys: seq<string>, deleteKeys: seq<string>, ghost before: Table, ghost after: Table,
                       tag: string, confirm: bool, readOnly: bool, openOk: bool, beginOk: bool, commitOk: bool)
    returns (ok: bool, affected: nat)
    requires Loaded(g) && st == Play(g, evs).st
    requires Lists(editKeys, st.edits) && Lists(deleteKeys, st.deletes)
    requires Elsewhere(g, before) && Elsewhere(g, after)
    requires (schema, name) in pool.db && pool.db[(schema, name)] == Within(before, LoadedRows(g), after)
    modifies pool`db
    ensures ok <==> GoesThrough(pool.server, old(pool.db), schema, name, Shape(g), Changes(st, editKeys, deleteKeys),
                                tag, confirm, readOnly, openOk, beginOk, commitOk)
    ensures ok ==> pool.db == old(pool.db)[(schema, name) := Overlay(g, st, editKeys, deleteKeys, pool.server.fill, before, after)]
    ensures ok ==> affected == DirtyCount(st)
    ensures !ok ==> pool.db == old(pool.db)
  {
    hide Loaded, Play, Changes, DirtyCount, Overlay, LoadedRows, Lists, Buildable, RunAll, Tracks, Elsewhere, Within, Texts,
         LetsThrough, RowChanges, NamesFit, IsIdent;
    ReachableTracks(g, evs);
    hide OnGrid;
    var changes := BuildChanges(st, editKeys, deleteKeys);
    if |changes| == 0 {
      NothingToDo(pool.server, pool.db, schema, name, g, st, editKeys, deleteKeys, before, after);
      return true, 0;
    }
    var stmts := BuildMutations(schema, name, Shape(g), changes);
    if stmts.Err? { return false, 0; }
    BuiltTexts(schema, name, Shape(g), changes, stmts.value);
    BuildableIff(schema, name, g, st, editKeys, deleteKeys);
    var r := pool.ExecuteBatch(tag, stmts.value, confirm, readOnly, openOk, beginOk, commitOk);
    if r.Err? { return false, 0; }
    BatchWrites(pool.server, old(pool.db), schema, name, g, st, editKeys, deleteKeys, before, after);
    ok, affected := true, r.value;
  }

  /** Without a confirmation nothing is stored on staging or production, nor at all
      for a read-only role. */
  lemma NothingUnconfirmed(server: Server, db: Db, schema: string, name: string, shape: TableShape, chs: seq<RowChange>,
                           tag: string, confirm: bool, readOnly: bool, openOk: bool, beginOk: bool, commitOk: bool)
    requires chs != [] && (readOnly || (!confirm && (tag == "staging" || tag == "production")))
    ensures !GoesThrough(server, db, schema, name, shape, chs, tag, confirm, readOnly, openOk, beginOk, commitOk)
  {
    hide IsIdent, StatementText, TableText, Valid, Judge, RunAll;
    if Buildable(schema, name, shape, chs) {
      var sql := Texts(schema, name, shape, chs)[0];
      BuiltIsDML(TableText(schema, name), shape, chs[0]);
      ReaderVerdict(tag, sql);
      if !readOnly { BuiltNeedsConfirming(tag, schema, name, shape, chs[0]); }
    }
  }

  lemma BuiltTexts(schema: string, name: string, shape: TableShape, chs: seq<RowChange>, texts: seq<string>)
    requires Buildable(schema, name, shape, chs) && |texts| == |chs|
    requires forall i | 0 <= i < |chs| :: texts[i] == StatementText(TableText(schema, name), shape, chs[i])
    ensures texts == Texts(schema, name, shape, chs)
    ensures texts == [] <==> chs == []
  {
    hide Valid, StatementText, TableText, IsIdent;
  }

  lemma NothingToDo(server: Server, db: Db, schema: string, name: string, g: Grid, st: State,
                    editKeys: seq<string>, deleteKeys: seq<string>, before: Table, after: Table)
    requires Loaded(g) && Tracks(g, st) && Lists(editKeys, st.edits) && Lists(deleteKeys, st.deletes)
    requires Elsewhere(g, before) && Elsewhere(g, after) && Changes(st, editKeys, deleteKeys) == []
    requires (schema, name) in db && db[(schema, name)] == Within(before, LoadedRows(g), after)
    ensures db == db[(schema, name) := Overlay(g, st, editKeys, deleteKeys, server.fill, before, after)] && DirtyCount(st) == 0
  {
    DirtyCountsChanges(st, editKeys, deleteKeys);
    HasKeyColumns(g);
    AllValidIff(g, st, editKeys, deleteKeys);
    ChangesWrite(g, st, editKeys, deleteKeys, server.fill, before, after);
    EffectsNone(server.fill, db[(schema, name)], Shape(g));
    hide Loaded, Tracks, Lists, Elsewhere, Changes, DirtyCount, Overlay, Within, LoadedRows, Effects;
  }

  /** The statements built from a run's changes, if they run, leave the overlay. */
  lemma BatchWrites(server: Server, db: Db, schema: string, name: string, g: Grid, st: State,
                    editKeys: seq<string>, deleteKeys: seq<string>, before: Table, after: Table)
    requires Loaded(g) && Tracks(g, st) && Lists(editKeys, st.edits) && Lists(deleteKeys, st.deletes)
    requires IsIdent(schema) && IsIdent(name) && NamesFit(g, st)
    requires Elsewhere(g, before) && Elsewhere(g, after)
    requires (schema, name) in db && db[(schema, name)] == Within(before, LoadedRows(g), after)
    ensures Buildable(schema, name, Shape(g), Changes(st, editKeys, deleteKeys))
    ensures var run := RunAll(server, db, Texts(schema, name, Shape(g), Changes(st, editKeys, deleteKeys)));
            run.Some? ==> run == Some((db[(schema, name) := Overlay(g, st, editKeys, deleteKeys, server.fill, before, after)], DirtyCount(st)))
  {
    var chs := Changes(st, editKeys, deleteKeys);
    BuildableIff(schema, name, g, st, editKeys, deleteKeys);
    ChangesWrite(g, st, editKeys, deleteKeys, server.fill, before, after);
    DirtyCountsChanges(st, editKeys, deleteKeys);
    var texts := Texts(schema, name, Shape(g), chs);
    hide Loaded, Tracks, Changes, DirtyCount, Overlay, LoadedRows, Lists, RunAll, StatementText, TableText, Valid, Effects, IsIdent,
         Elsewhere, Within, AllValid, NamesFit;
    if RunAll(server, db, texts).Some? {
      RunIsEffects(server, db, texts, schema, name, Shape(g), chs);
    }
  }
}
