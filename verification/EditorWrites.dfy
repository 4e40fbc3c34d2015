/** Submitting the pending changes: the statements built from them, run in one
    transaction, store exactly the rows EditorGrid says are written. */
module EditorWrites {
  import opened Base
  import opened SqlText
  import opened SqlReader
  import opened SqlEval
  import opened Mutate
  import opened ReadBack
  import opened SqlRun
  import opened Editor
  import opened EditorGrid

  // ----- the effect of a list of changes on the table -----

  ghost predicate AllValid(shape: TableShape, chs: seq<RowChange>) {
    shape.primaryKey != [] && forall ch | ch in chs :: Valid(shape, ch)
  }

  /** What the changes, taken in order, do to the table, and the rows they affect. */
  ghost function Effects(fill: Table -> Row, rows: Table, shape: TableShape, chs: seq<RowChange>): (Table, nat)
    requires AllValid(shape, chs)
  {
    if chs == [] then (rows, 0)
    else
      var (before, n) := Effects(fill, rows, shape, chs[..|chs| - 1]);
      var (after, m) := Effect(fill, before, Intent("", "", shape, chs[|chs| - 1]));
      (after, n + m)
  }

  lemma EffectsSnoc(fill: Table -> Row, rows: Table, shape: TableShape, chs: seq<RowChange>, ch: RowChange)
    requires AllValid(shape, chs) && Valid(shape, ch)
    ensures AllValid(shape, chs + [ch])
    ensures var p := Effects(fill, rows, shape, chs);
            var q := Effect(fill, p.0, Intent("", "", shape, ch));
            Effects(fill, rows, shape, chs + [ch]) == (q.0, p.1 + q.1)
  {
    hide Valid, Intent, Effect;
    assert (chs + [ch])[..|chs|] == chs;
  }

  lemma ValidParts(shape: TableShape, a: seq<RowChange>, b: seq<RowChange>)
    ensures AllValid(shape, a + b) <==> AllValid(shape, a) && AllValid(shape, b)
  {
    hide Valid;
    assert forall ch :: ch in a + b <==> ch in a || ch in b;
  }

  lemma SnocSplit(a: seq<RowChange>, b: seq<RowChange>)
    requires b != []
    ensures var init, last := b[..|b| - 1], b[|b| - 1];
            b == init + [last] && a + b == (a + init) + [last]
  {
  }

  lemma EffectsNone(fill: Table -> Row, rows: Table, shape: TableShape)
    requires AllValid(shape, []) || shape.primaryKey != []
    ensures AllValid(shape, []) && Effects(fill, rows, shape, []) == (rows, 0)
  {
  }

  lemma {:induction false} EffectsAppend(fill: Table -> Row, rows: Table, shape: TableShape, a: seq<RowChange>, b: seq<RowChange>)
    requires AllValid(shape, a) && AllValid(shape, b)
    ensures AllValid(shape, a + b)
    ensures var p := Effects(fill, rows, shape, a);
            var q := Effects(fill, p.0, shape, b);
            Effects(fill, rows, shape, a + b) == (q.0, p.1 + q.1)
  {
    hide Valid, Intent, Effect, Effects, AllValid;
    var p := Effects(fill, rows, shape, a);
    if b == [] {
      EffectsNone(fill, p.0, shape);
      assert a + b == a;
    } else {
      var init, last := b[..|b| - 1], b[|b| - 1];
      SnocSplit(a, b);
      ValidParts(shape, init, [last]);
      ValidOne(shape, last);
      EffectsAppend(fill, rows, shape, a, init);
      EffectsSnoc(fill, rows, shape, a + init, last);
      EffectsSnoc(fill, p.0, shape, init, last);
    }
  }

  lemma ValidOne(shape: TableShape, ch: RowChange)
    requires AllValid(shape, [ch])
    ensures Valid(shape, ch)
  {
    hide Valid;
    assert ch in [ch];
  }

  /** Run successfully, built statements do to their table what the changes say,
      and leave every other table alone. */
  lemma {:induction false} RunIsEffects(server: Server, db: Db, texts: seq<string>, schema: string, name: string,
                                        shape: TableShape, chs: seq<RowChange>)
    requires AllValid(shape, chs) && IsIdent(schema) && IsIdent(name) && |texts| == |chs|
    requires forall i | 0 <= i < |chs| :: Valid(shape, chs[i]) && texts[i] == StatementText(TableText(schema, name), shape, chs[i])
    requires (schema, name) in db && RunAll(server, db, texts).Some?
    ensures var e := Effects(server.fill, db[(schema, name)], shape, chs);
            RunAll(server, db, texts) == Some((db[(schema, name) := e.0], e.1))
  {
    hide Valid, StatementText, TableText, IsIdent, RunText, Intent, Effect;
    if chs == [] {
      assert db[(schema, name) := db[(schema, name)]] == db;
    } else {
      var k := |chs| - 1;
      var init, last := chs[..k], chs[k];
      assert AllValid(shape, init) && last in chs;
      RunIsEffects(server, db, texts[..k], schema, name, shape, init);
      var db1 := RunAll(server, db, texts[..k]).value.0;
      OneRun(server, db1, texts[k], schema, name, shape, last);
      assert init + [last] == chs;
      EffectsSnoc(server.fill, db[(schema, name)], shape, init, last);
      var at, e := (schema, name), Effects(server.fill, db[(schema, name)], shape, chs);
      assert db1[at := e.0] == db[at := e.0];
    }
  }

  /** Built statements run exactly when the database accepts each in its turn, on
      the table as those before it left it. */
  lemma {:induction false} RunsIffAccepted(server: Server, db: Db, texts: seq<string>, schema: string, name: string,
                                           shape: TableShape, chs: seq<RowChange>)
    requires AllValid(shape, chs) && IsIdent(schema) && IsIdent(name) && |texts| == |chs|
    requires forall i | 0 <= i < |chs| :: Valid(shape, chs[i]) && texts[i] == StatementText(TableText(schema, name), shape, chs[i])
    requires (schema, name) in db
    ensures RunAll(server, db, texts).Some? <==> forall i | 0 <= i < |chs| :: TakenAt(server, db, schema, name, shape, chs, i)
  {
    hide Valid, StatementText, TableText, IsIdent, RunText, Intent, Effect, TakenAt;
    if chs != [] {
      var k := |chs| - 1;
      var init, last := chs[..k], chs[k];
      assert AllValid(shape, init) && last in chs;
      RunsIffAccepted(server, db, texts[..k], schema, name, shape, init);
      forall i | 0 <= i < k ensures TakenAt(server, db, schema, name, shape, init, i) <==> TakenAt(server, db, schema, name, shape, chs, i) {
        SameTaken(server, db, schema, name, shape, chs, i);
      }
      if RunAll(server, db, texts[..k]).Some? {
        RunIsEffects(server, db, texts[..k], schema, name, shape, init);
        LastTaken(server, db, texts[k], schema, name, shape, chs);
      }
    }
  }

  ghost predicate TakenAt(server: Server, db: Db, schema: string, name: string, shape: TableShape, chs: seq<RowChange>, i: nat)
    requires AllValid(shape, chs) && i < |chs| && (schema, name) in db
  {
    assert forall ch | ch in chs[..i] :: ch in chs;
    assert chs[i] in chs;
    server.accepts(db[(schema, name) := Effects(server.fill, db[(schema, name)], shape, chs[..i]).0], Intent(schema, name, shape, chs[i]))
  }

  lemma SameTaken(server: Server, db: Db, schema: string, name: string, shape: TableShape, chs: seq<RowChange>, i: nat)
    requires AllValid(shape, chs) && i < |chs| - 1 && (schema, name) in db
    ensures AllValid(shape, chs[..|chs| - 1])
    ensures TakenAt(server, db, schema, name, shape, chs[..|chs| - 1], i) <==> TakenAt(server, db, schema, name, shape, chs, i)
  {
    hide Valid, Intent, Effects;
    assert chs[..|chs| - 1][..i] == chs[..i];
  }

  lemma LastTaken(server: Server, db: Db, text: string, schema: string, name: string, shape: TableShape, chs: seq<RowChange>)
    requires chs != [] && AllValid(shape, chs) && AllValid(shape, chs[..|chs| - 1]) && IsIdent(schema) && IsIdent(name) && (schema, name) in db
    requires Valid(shape, chs[|chs| - 1]) && text == StatementText(TableText(schema, name), shape, chs[|chs| - 1])
    ensures RunText(server, db[(schema, name) := Effects(server.fill, db[(schema, name)], shape, chs[..|chs| - 1]).0], text).Some?
            <==> TakenAt(server, db, schema, name, shape, chs, |chs| - 1)
  {
    hide StatementText, TableText, IsIdent, Valid, Read, Effects, Effect, Keys, KeyExpr, Pairs, ValuesOf;
    StatementReadsBack(schema, name, shape, chs[|chs| - 1]);
  }

  lemma OneRun(server: Server, db: Db, text: string, schema: string, name: string, shape: TableShape, ch: RowChange)
    requires Valid(shape, ch) && shape.primaryKey != [] && IsIdent(schema) && IsIdent(name)
    requires text == StatementText(TableText(schema, name), shape, ch) && (schema, name) in db
    requires RunText(server, db, text).Some?
    ensures var q := Effect(server.fill, db[(schema, name)], Intent("", "", shape, ch));
            RunText(server, db, text) == Some((db[(schema, name) := q.0], q.1))
  {
    hide StatementText, TableText, IsIdent, Valid, Read;
    StatementReadsBack(schema, name, shape, ch);
    NamesDoNotMatter(server.fill, db[(schema, name)], schema, name, shape, ch);
    hide Effect;
  }

  lemma NamesDoNotMatter(fill: Table -> Row, rows: Table, schema: string, name: string, shape: TableShape, ch: RowChange)
    requires Valid(shape, ch) && shape.primaryKey != []
    ensures Effect(fill, rows, Intent(schema, name, shape, ch)) == Effect(fill, rows, Intent("", "", shape, ch))
    ensures Intent(schema, name, shape, ch).schema == schema && Intent(schema, name, shape, ch).table == name
  {
    hide KeyExpr, Pairs, ValuesOf, Keys, Updated, Without, Matches, Assigned;
  }

  // ----- assignments -----

  /** What the listed columns hold. */
  function Chosen(cols: seq<string>, m: Fields): Row {
    map c | c in m && c in cols :: Meaning(m[c])
  }

  lemma ChosenNone(row: Row, m: Fields)
    ensures row + Chosen([], m) == row
  {
  }

  lemma ChosenStep(row: Row, cols: seq<string>, m: Fields)
    requires cols != [] && cols[0] in m
    ensures row[cols[0] := Meaning(m[cols[0]])] + Chosen(cols[1..], m) == row + Chosen(cols, m)
  {
    hide Meaning;
    assert cols == [cols[0]] + cols[1..];
  }

  lemma {:induction false} PairsAssign(row: Row, cols: seq<string>, m: Fields)
    requires forall c | c in cols :: c in m
    ensures Assigned(row, Pairs(cols, m)) == row + Chosen(cols, m)
    decreases |cols|
  {
    hide Meaning, Chosen;
    if cols == [] {
      ChosenNone(row, m);
    } else {
      PairsAssign(row[cols[0] := Meaning(m[cols[0]])], cols[1..], m);
      ChosenStep(row, cols, m);
      assert Pairs(cols, m)[1..] == Pairs(cols[1..], m);
    }
  }

  lemma {:induction false} ZipIsPairs(cols: seq<string>, m: Fields)
    requires forall c | c in cols :: c in m
    ensures Zip(cols, ValuesOf(cols, m)) == Pairs(cols, m)
  {
    if cols != [] {
      assert ValuesOf(cols, m)[1..] == ValuesOf(cols[1..], m);
      ZipIsPairs(cols[1..], m);
    }
  }

  lemma WholeRow(row: Row, m: Fields)
    ensures Assigned(row, Pairs(Keys(m), m)) == row + DbRow(m)
  {
    PairsAssign(row, Keys(m), m);
    hide Meaning, Pairs, Assigned;
    assert Chosen(Keys(m), m) == DbRow(m);
  }

  // ----- the WHERE on the key -----

  predicate SameKey(row: Row, pk: Fields, cols: seq<string>) {
    forall c | c in cols :: c in pk && !pk[c].Null? && ValueAt(row, c) == Some(CellText(pk[c]))
  }

  /** The condition on the key holds exactly of rows with those key values. */
  lemma {:induction false} KeyExprMeans(row: Row, cols: seq<string>, pk: Fields)
    requires cols != [] && forall c | c in cols :: c in pk && !pk[c].Null?
    ensures Eval(KeyExpr(cols, pk), row) == True <==> SameKey(row, pk, cols)
  {
    hide CellText, ValueAt;
    if |cols| == 1 {
      assert cols == [cols[0]];
    } else {
      KeyExprMeans(row, cols[1..], pk);
      assert cols == [cols[0]] + cols[1..];
    }
  }

  lemma {:induction false} SameStrings(a: Fields, b: Fields, cols: seq<string>)
    requires forall c | c in cols :: c in a && c in b && !a[c].Null? && !b[c].Null? && CellText(a[c]) == CellText(b[c])
    ensures KeyStrings(a, cols) == KeyStrings(b, cols)
  {
    hide CellText;
    if cols != [] { SameStrings(a, b, cols[1..]); }
  }

  /** Editing leaves the key columns alone. */
  lemma PatchKeepsKey(g: Grid, st: State, i: nat, applied: seq<string>, c: string)
    requires Loaded(g) && Tracks(g, st) && i < |g.rows| && c in g.pkCols
    ensures c in g.rows[i] && !g.rows[i][c].Null?
    ensures ValueAt(Patched(g, st, i, applied), c) == Some(CellText(g.rows[i][c]))
  {
    hide Inherited, RowKeyFor, PkFor;
    var key := KeyAt(g, i);
    if key in st.edits { assert IsEdit(g, key, st.edits[key]); }
  }

  /** The condition that addresses loaded row j. */
  ghost function KeyCond(g: Grid, j: nat): Expr
    requires Loaded(g) && Keyed(g) && j < |g.rows|
  {
    KeyExpr(g.pkCols, PkFor(g.rows[j], g.pkCols))
  }

  /** Of all the rows, patched or not, the key of row j picks out row j alone. */
  lemma HitsOne(g: Grid, st: State, i: nat, j: nat, applied: seq<string>)
    requires Loaded(g) && Keyed(g) && Tracks(g, st) && i < |g.rows| && j < |g.rows|
    ensures Eval(KeyCond(g, j), Patched(g, st, i, applied)) == True <==> i == j
  {
    var pk := PkFor(g.rows[j], g.pkCols);
    var row := Patched(g, st, i, applied);
    assert forall c | c in g.pkCols :: c in g.rows[j] && pk[c] == g.rows[j][c];
    KeyExprMeans(row, g.pkCols, pk);
    hide Eval, KeyExpr, Patched, CellText, ValueAt, RowKeyFor, Tracks;
    forall c | c in g.pkCols ensures c in g.rows[i] && !g.rows[i][c].Null? && ValueAt(row, c) == Some(CellText(g.rows[i][c])) {
      PatchKeepsKey(g, st, i, applied, c);
    }
    if SameKey(row, pk, g.pkCols) {
      SameStrings(g.rows[i], g.rows[j], g.pkCols);
      SameRowKey(g.rows[i], g.rows[j], g.pkCols);
      OneRowPerKey(g, i, j);
    }
  }

  lemma SameRowKey(a: Fields, b: Fields, cols: seq<string>)
    requires (forall c | c in cols :: c in a && c in b) && KeyStrings(a, cols) == KeyStrings(b, cols)
    ensures RowKeyFor(a, cols) == RowKeyFor(b, cols)
  {
  }

  // ----- updates, deletes, inserts -----

  lemma FilterSnoc(rows: Table, x: Row, sets: seq<(string, Value)>, where: Expr)
    ensures Updated(rows + [x], sets, where) == Updated(rows, sets, where) + [if Eval(where, x) == True then Assigned(x, sets) else x]
    ensures Without(rows + [x], where) == if Eval(where, x) == True then Without(rows, where) else Without(rows, where) + [x]
    ensures Matches(rows + [x], where) == Matches(rows, where) + if Eval(where, x) == True then 1 else 0
  {
    hide Eval, Assigned;
    assert (rows + [x])[..|rows|] == rows;
  }

  /** One update patches one row. */
  lemma {:induction false} UpdatePatches(g: Grid, st: State, n: nat, applied: seq<string>, j: nat)
    requires Loaded(g) && Keyed(g) && Tracks(g, st) && n <= |g.rows| && j < |g.rows|
    requires KeyAt(g, j) !in applied && KeyAt(g, j) in st.edits && Live(st, KeyAt(g, j))
    ensures var sets, before := st.edits[KeyAt(g, j)].sets, Written(g, st, n, applied, []);
            && Updated(before, Pairs(Keys(sets), sets), KeyCond(g, j)) == Written(g, st, n, applied + [KeyAt(g, j)], [])
            && Matches(before, KeyCond(g, j)) == (if j < n then 1 else 0)
  {
    hide *;
    var sets := st.edits[KeyAt(g, j)].sets;
    if n == 0 {
      WrittenNone(g, st, applied, []);
      WrittenNone(g, st, applied + [KeyAt(g, j)], []);
      EmptyTable(Pairs(Keys(sets), sets), KeyCond(g, j));
    } else {
      UpdatePatches(g, st, n - 1, applied, j);
      HitsOne(g, st, n - 1, j, applied);
      OnePatch(g, st, n - 1, applied, j);
      WrittenStep(g, st, n, applied, []);
      WrittenStep(g, st, n, applied + [KeyAt(g, j)], []);
      FilterSnoc(Written(g, st, n - 1, applied, []), Patched(g, st, n - 1, applied), Pairs(Keys(sets), sets), KeyCond(g, j));
    }
  }

  lemma WrittenNone(g: Grid, st: State, applied: seq<string>, deleted: seq<string>)
    requires Loaded(g)
    ensures Written(g, st, 0, applied, deleted) == []
  {
    hide Loaded, KeyAt, Patched;
  }

  lemma EmptyTable(sets: seq<(string, Value)>, where: Expr)
    ensures Updated([], sets, where) == [] && Without([], where) == [] && Matches([], where) == 0
  {
  }

  lemma WrittenStep(g: Grid, st: State, n: nat, applied: seq<string>, deleted: seq<string>)
    requires Loaded(g) && 0 < n <= |g.rows|
    ensures Written(g, st, n, applied, deleted)
            == var before := Written(g, st, n - 1, applied, deleted);
               if KeyAt(g, n - 1) in deleted then before else before + [Patched(g, st, n - 1, applied)]
  {
    hide Patched, KeyAt, Loaded;
  }

  lemma OnePatch(g: Grid, st: State, i: nat, applied: seq<string>, j: nat)
    requires Loaded(g) && Keyed(g) && i < |g.rows| && j < |g.rows|
    requires KeyAt(g, j) !in applied && Live(st, KeyAt(g, j))
    ensures var sets := st.edits[KeyAt(g, j)].sets;
            Patched(g, st, i, applied + [KeyAt(g, j)])
            == if i == j then Assigned(Patched(g, st, i, applied), Pairs(Keys(sets), sets)) else Patched(g, st, i, applied)
  {
    hide RowKeyFor, Inherited, Assigned, Pairs, Keys, DbRow;
    if i == j {
      WholeRow(Patched(g, st, i, applied), st.edits[KeyAt(g, j)].sets);
    } else if KeyAt(g, i) == KeyAt(g, j) {
      OneRowPerKey(g, i, j);
    }
  }

  /** One delete takes out one row. */
  lemma {:induction false} DeleteRemoves(g: Grid, st: State, n: nat, applied: seq<string>, deleted: seq<string>, j: nat)
    requires Loaded(g) && Keyed(g) && Tracks(g, st) && n <= |g.rows| && j < |g.rows| && KeyAt(g, j) !in deleted
    ensures var before := Written(g, st, n, applied, deleted);
            && Without(before, KeyCond(g, j)) == Written(g, st, n, applied, deleted + [KeyAt(g, j)])
            && Matches(before, KeyCond(g, j)) == (if j < n then 1 else 0)
  {
    hide *;
    if n == 0 {
      WrittenNone(g, st, applied, deleted);
      WrittenNone(g, st, applied, deleted + [KeyAt(g, j)]);
      EmptyTable([], KeyCond(g, j));
    } else {
      DeleteRemoves(g, st, n - 1, applied, deleted, j);
      DeleteStep(g, st, n, applied, deleted, j);
    }
  }

  lemma DeleteStep(g: Grid, st: State, n: nat, applied: seq<string>, deleted: seq<string>, j: nat)
    requires Loaded(g) && Keyed(g) && Tracks(g, st) && 0 < n <= |g.rows| && j < |g.rows| && KeyAt(g, j) !in deleted
    requires var before := Written(g, st, n - 1, applied, deleted);
             && Without(before, KeyCond(g, j)) == Written(g, st, n - 1, applied, deleted + [KeyAt(g, j)])
             && Matches(before, KeyCond(g, j)) == (if j < n - 1 then 1 else 0)
    ensures var before := Written(g, st, n, applied, deleted);
            && Without(before, KeyCond(g, j)) == Written(g, st, n, applied, deleted + [KeyAt(g, j)])
            && Matches(before, KeyCond(g, j)) == (if j < n then 1 else 0)
  {
    hide *;
    HitsOne(g, st, n - 1, j, applied);
    WrittenStep(g, st, n, applied, deleted);
    WrittenStep(g, st, n, applied, deleted + [KeyAt(g, j)]);
    if KeyAt(g, n - 1) == KeyAt(g, j) { OneRowPerKey(g, n - 1, j); }
    FilterSnoc(Written(g, st, n - 1, applied, deleted), Patched(g, st, n - 1, applied), [], KeyCond(g, j));
  }

  /** The rows after the non-empty drafts are inserted: the draft's values over
      the database's own. */
  ghost function WithDrafts(fill: Table -> Row, rows: Table, ds: seq<DraftRow>): Table {
    if ds == [] then rows
    else
      var before, last := WithDrafts(fill, rows, ds[..|ds| - 1]), ds[|ds| - 1];
      if last.values == map[] then before else before + [fill(before) + DbRow(last.values)]
  }

  lemma InsertAdds(fill: Table -> Row, rows: Table, shape: TableShape, m: Fields)
    requires var ch := RowChange("insert", map[], map[], m); Valid(shape, ch) && shape.primaryKey != []
    ensures Effect(fill, rows, Intent("", "", shape, RowChange("insert", map[], map[], m))) == (rows + [fill(rows) + DbRow(m)], 1)
  {
    hide Keys, DbRow, Assigned, IsIdent;
    ZipIsPairs(Keys(m), m);
    WholeRow(fill(rows), m);
  }

  lemma {:induction false} InsertsWrite(fill: Table -> Row, rows: Table, shape: TableShape, ds: seq<DraftRow>)
    requires AllValid(shape, InsertsIn(ds))
    ensures Effects(fill, rows, shape, InsertsIn(ds)) == (WithDrafts(fill, rows, ds), |InsertsIn(ds)|)
  {
    assert forall ch | ch in InsertsIn(ds) :: Valid(shape, ch);
    EffectsNone(fill, rows, shape);
    hide Valid, Intent, Effect, DbRow, Effects;
    if ds != [] {
      var init, last := ds[..|ds| - 1], ds[|ds| - 1];
      if last.values == map[] {
        assert InsertsIn(ds) == InsertsIn(init);
        InsertsWrite(fill, rows, shape, init);
      } else {
        var ch := RowChange("insert", map[], map[], last.values);
        assert InsertsIn(ds) == InsertsIn(init) + [ch] && ch in InsertsIn(ds);
        ValidParts(shape, InsertsIn(init), [ch]);
        InsertsWrite(fill, rows, shape, init);
        EffectsSnoc(fill, rows, shape, InsertsIn(init), ch);
        InsertAdds(fill, WithDrafts(fill, rows, init), shape, last.values);
      }
    }
  }
}
