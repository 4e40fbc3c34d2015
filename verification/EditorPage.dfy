/** When the pending changes of a page can be built, and when the page tells what
    submitting them would store. */
module EditorPage {
  import opened Base
  import opened SqlText
  import opened Mutate
  import opened Editor
  import opened EditorGrid
  import opened EditorWrites

  function Shape(g: Grid): TableShape {
    TableShape(g.pkCols, g.columns)
  }

  /** Some loaded row would be updated or deleted. */
  ghost predicate RowChanges(st: State) {
    exists k :: Pending(st, k)
  }

  /** The changes write this column. */
  ghost predicate Writes(st: State, c: string) {
    || (exists k :: Live(st, k) && c in st.edits[k].sets)
    || exists d :: d in st.drafts && c in d.values
  }

  /** The columns written are identifiers and, where loaded rows are changed, so are
      the key columns, and row keys hold them all. */
  ghost predicate NamesFit(g: Grid, st: State) {
    && (RowChanges(st) ==> Keyed(g) && forall c | c in g.pkCols :: IsIdent(c))
    && (forall c | Writes(st, c) :: IsIdent(c))
  }

  // ----- what the changes are -----

  function UpdateOf(st: State, key: string): RowChange
    requires key in st.edits
  {
    RowChange("update", st.edits[key].pk, st.edits[key].sets, map[])
  }

  function RemovalOf(st: State, key: string): RowChange
    requires key in st.deletes
  {
    RowChange("delete", st.deletes[key], map[], map[])
  }

  function InsertOf(d: DraftRow): RowChange {
    RowChange("insert", map[], map[], d.values)
  }

  lemma {:induction false} InUpdates(st: State, keys: seq<string>)
    requires forall k | k in keys :: k in st.edits
    ensures forall ch :: ch in UpdatesIn(st, keys) <==> exists k :: k in keys && Live(st, k) && ch == UpdateOf(st, k)
  {
    hide Live;
    if keys != [] {
      var init, last := keys[..|keys| - 1], keys[|keys| - 1];
      assert keys == init + [last];
      assert last in keys;
      InUpdates(st, init);
    }
  }

  lemma {:induction false} InDeletes(st: State, keys: seq<string>)
    requires forall k | k in keys :: k in st.deletes
    ensures forall ch :: ch in DeletesIn(st, keys) <==> exists k :: k in keys && ch == RemovalOf(st, k)
  {
    if keys != [] {
      var init, last := keys[..|keys| - 1], keys[|keys| - 1];
      assert keys == init + [last];
      assert last in keys;
      InDeletes(st, init);
    }
  }

  lemma {:induction false} InInserts(ds: seq<DraftRow>)
    ensures forall ch :: ch in InsertsIn(ds) <==> exists d :: d in ds && d.values != map[] && ch == InsertOf(d)
  {
    if ds != [] {
      var init, last := ds[..|ds| - 1], ds[|ds| - 1];
      assert ds == init + [last];
      assert last in ds;
      InInserts(init);
    }
  }

  /** The changes are an update for each live edit, a delete for each mark and an
      insert for each draft that holds something. */
  lemma InChanges(st: State, editKeys: seq<string>, deleteKeys: seq<string>, ch: RowChange)
    requires Lists(editKeys, st.edits) && Lists(deleteKeys, st.deletes)
    ensures ch in Changes(st, editKeys, deleteKeys) <==>
              || (exists k :: Live(st, k) && ch == UpdateOf(st, k))
              || (exists k :: k in st.deletes && ch == RemovalOf(st, k))
              || (exists d :: d in st.drafts && d.values != map[] && ch == InsertOf(d))
  {
    hide UpdatesIn, DeletesIn, InsertsIn;
    InUpdates(st, editKeys);
    InDeletes(st, deleteKeys);
    InInserts(st.drafts);
  }

  // ----- when they can be built -----

  lemma KeyAddresses(g: Grid, i: nat)
    requires Loaded(g) && i < |g.rows|
    ensures Addresses(Shape(g), PkFor(g.rows[i], g.pkCols)) <==> Keyed(g) && forall c | c in g.pkCols :: IsIdent(c)
  {
    hide IsIdent, RowKeyFor;
    var pk := PkFor(g.rows[i], g.pkCols);
    assert g.pkCols[0] in g.pkCols;
    assert Keyed(g) ==> g.pkCols[0] in pk;
  }

  /** A change of a loaded row is valid when its names are. */
  lemma RowChangeValid(g: Grid, st: State, key: string)
    requires Loaded(g) && Tracks(g, st) && Pending(st, key)
    ensures key in st.deletes ==>
              (Valid(Shape(g), RemovalOf(st, key)) <==> Keyed(g) && forall c | c in g.pkCols :: IsIdent(c))
    ensures key !in st.deletes ==>
              (Valid(Shape(g), UpdateOf(st, key)) <==>
               && Keyed(g) && (forall c | c in g.pkCols :: IsIdent(c))
               && forall c | c in st.edits[key].sets :: IsIdent(c))
  {
    var i := PendingHasRow(g, st, key);
    KeyAddresses(g, i);
    if key !in st.deletes { LiveEdit(g, st, key); }
    hide IsIdent, Loaded, Tracks, Addresses, PkFor, KeyAt, Inherited;
  }

  lemma DraftValid(g: Grid, st: State, d: DraftRow)
    requires Loaded(g) && Tracks(g, st) && d in st.drafts && d.values != map[]
    ensures Valid(Shape(g), InsertOf(d)) <==> forall c | c in d.values :: IsIdent(c)
  {
    hide IsIdent, Loaded, IsEdit, IsDelete, DraftsNumbered;
  }

  lemma FittingIsValid(g: Grid, st: State, editKeys: seq<string>, deleteKeys: seq<string>)
    requires Loaded(g) && Tracks(g, st) && Lists(editKeys, st.edits) && Lists(deleteKeys, st.deletes) && NamesFit(g, st)
    ensures AllValid(Shape(g), Changes(st, editKeys, deleteKeys))
  {
    hide Loaded, Tracks, Lists, Changes, Valid, NamesFit;
    forall ch | ch in Changes(st, editKeys, deleteKeys) ensures Valid(Shape(g), ch) {
      InChanges(st, editKeys, deleteKeys, ch);
      ChangeValid(g, st, ch);
    }
    HasKeyColumns(g);
  }

  lemma ValidFits(g: Grid, st: State, editKeys: seq<string>, deleteKeys: seq<string>)
    requires Loaded(g) && Tracks(g, st) && Lists(editKeys, st.edits) && Lists(deleteKeys, st.deletes)
    requires AllValid(Shape(g), Changes(st, editKeys, deleteKeys))
    ensures NamesFit(g, st)
  {
    hide Loaded, Tracks, Lists, Changes, Valid, IsIdent, Keyed, Inherited;
    forall k | Pending(st, k)
      ensures Keyed(g) && forall c | c in g.pkCols :: IsIdent(c)
      ensures Live(st, k) ==> forall c | c in st.edits[k].sets :: IsIdent(c)
    {
      RowChangeValid(g, st, k);
      if k in st.deletes { InChanges(st, editKeys, deleteKeys, RemovalOf(st, k)); }
      else { InChanges(st, editKeys, deleteKeys, UpdateOf(st, k)); }
    }
    forall d, c | d in st.drafts && c in d.values ensures IsIdent(c) {
      DraftValid(g, st, d);
      InChanges(st, editKeys, deleteKeys, InsertOf(d));
    }
  }

  /** All that can stand in the way of the changes is a name. */
  lemma AllValidIff(g: Grid, st: State, editKeys: seq<string>, deleteKeys: seq<string>)
    requires Loaded(g) && Tracks(g, st) && Lists(editKeys, st.edits) && Lists(deleteKeys, st.deletes)
    ensures AllValid(Shape(g), Changes(st, editKeys, deleteKeys)) <==> NamesFit(g, st)
  {
    hide *;
    if NamesFit(g, st) { FittingIsValid(g, st, editKeys, deleteKeys); }
    if AllValid(Shape(g), Changes(st, editKeys, deleteKeys)) { ValidFits(g, st, editKeys, deleteKeys); }
  }

  lemma HasKeyColumns(g: Grid)
    requires Loaded(g)
    ensures Shape(g).primaryKey != []
  {
  }

  lemma ChangeValid(g: Grid, st: State, ch: RowChange)
    requires Loaded(g) && Tracks(g, st) && NamesFit(g, st)
    requires || (exists k :: Live(st, k) && ch == UpdateOf(st, k))
             || (exists k :: k in st.deletes && ch == RemovalOf(st, k))
             || (exists d :: d in st.drafts && d.values != map[] && ch == InsertOf(d))
    ensures Valid(Shape(g), ch)
  {
    hide Loaded, Tracks, Valid, IsIdent, Keyed, Inherited;
    if k :| Live(st, k) && ch == UpdateOf(st, k) {
      assert Pending(st, k);
      RowChangeValid(g, st, k);
      assert forall c | c in st.edits[k].sets :: Writes(st, c);
    } else if k :| k in st.deletes && ch == RemovalOf(st, k) {
      assert Pending(st, k);
      RowChangeValid(g, st, k);
    } else {
      var d :| d in st.drafts && d.values != map[] && ch == InsertOf(d);
      DraftValid(g, st, d);
      assert forall c | c in d.values :: Writes(st, c);
    }
  }

  /** A reachable set of changes is built exactly when its names can be: the
      table's, the columns' it writes and, for changed rows, the key's. */
  lemma BuildableIff(schema: string, name: string, g: Grid, st: State, editKeys: seq<string>, deleteKeys: seq<string>)
    requires Loaded(g) && Tracks(g, st) && Lists(editKeys, st.edits) && Lists(deleteKeys, st.deletes)
    ensures Buildable(schema, name, Shape(g), Changes(st, editKeys, deleteKeys)) <==>
              IsIdent(schema) && IsIdent(name) && NamesFit(g, st)
  {
    AllValidIff(g, st, editKeys, deleteKeys);
    HasKeyColumns(g);
    hide Loaded, Tracks, Lists, Changes, Valid, IsIdent, NamesFit;
  }

  // ----- when the page can be trusted -----

  /** The changes can be built, and the page tells all they will do, exactly when
      names can be quoted, no inherited name gets in the way, and no row off the
      page is marked deleted or has an edit that sets anything new. */
  lemma PageIsTrueIff(schema: string, name: string, g: Grid, st: State, page: seq<nat>, editKeys: seq<string>, deleteKeys: seq<string>)
    requires Loaded(g) && Tracks(g, st) && OnGrid(g, page) && Lists(editKeys, st.edits) && Lists(deleteKeys, st.deletes)
    ensures Buildable(schema, name, Shape(g), Changes(st, editKeys, deleteKeys)) && TellsAll(g, st, page, editKeys, deleteKeys) <==>
              && IsIdent(schema) && IsIdent(name) && NamesFit(g, st)
              && NoInheritedNames(g, st, page) && QuietOffPage(g, st, page)
  {
    BuildableIff(schema, name, g, st, editKeys, deleteKeys);
    TellsAllIff(g, st, page, editKeys, deleteKeys);
    hide *;
  }

  // ----- the ways it fails -----

  lemma PlaySnoc(g: Grid, evs: seq<Event>, ev: Event)
    requires Loaded(g)
    ensures Play(g, evs + [ev]) == Step(g, Play(g, evs), ev)
  {
    hide Loaded, Step;
    assert (evs + [ev])[..|evs|] == evs;
  }

  /** A page is opened. */
  lemma Opened(g: Grid, page: seq<nat>)
    requires Loaded(g) && OnGrid(g, page)
    ensures Play(g, [PageReplaced(page)]) == Session(INITIAL, page)
  {
    hide Loaded, RowRenders;
    PlaySnoc(g, [], PageReplaced(page));
    assert [] + [PageReplaced(page)] == [PageReplaced(page)];
  }

  /** A page without inherited row keys is up. */
  lemma Up(g: Grid, evs: seq<Event>)
    requires Loaded(g) && forall i | i in Play(g, evs).page && i < |g.rows| :: !Inherited(KeyAt(g, i))
    ensures Renders(g, Play(g, evs).st, Play(g, evs).page)
  {
    hide Inherited, Loaded, KeyAt, Play, RowRenders, Tracks;
    ReachableTracks(g, evs);
    var s := Play(g, evs);
    forall i | i in s.page && i < |g.rows| ensures RowRenders(g, s.st, i) { RowRendersIff(g, s.st, i); }
  }

  /** Once it is down it stays down. */
  lemma {:induction false} Down(g: Grid, evs: seq<Event>, more: seq<Event>)
    requires Loaded(g) && !Renders(g, Play(g, evs).st, Play(g, evs).page)
    ensures Play(g, evs + more) == Play(g, evs)
  {
    hide Loaded, Renders, Play;
    if more == [] {
      assert evs + more == evs;
    } else {
      var init, last := more[..|more| - 1], more[|more| - 1];
      Down(g, evs, init);
      PlaySnoc(g, evs + init, last);
      assert evs + more == (evs + init) + [last];
    }
  }

  /** ... and one of its rows is toggled. */
  lemma OpenedAndToggled(g: Grid, page: seq<nat>, i: nat)
    requires Loaded(g) && OnGrid(g, page) && i in page && forall j | j in page :: !Inherited(KeyAt(g, j))
    ensures Play(g, [PageReplaced(page), DeleteToggled(i)])
            == Session(ToggleDelete(INITIAL, KeyAt(g, i), PkFor(g.rows[i], g.pkCols)), page)
  {
    Opened(g, page);
    Up(g, [PageReplaced(page)]);
    hide Loaded, KeyAt, PkFor, ToggleDelete, Play, Renders, Inherited;
    PlaySnoc(g, [PageReplaced(page)], DeleteToggled(i));
    assert [PageReplaced(page)] + [DeleteToggled(i)] == [PageReplaced(page), DeleteToggled(i)];
  }

  lemma KeyOfOne(row: Fields, c: string)
    requires c in row
    ensures RowKeyFor(row, [c]) == if c == PROTO then "undefined" else CellString(row[c])
    ensures PkFor(row, [c]) == if c == PROTO then map[] else map[c := row[c]]
  {
    assert KeyStrings(row, [c])[1..] == [];
  }

  /** A table with one column, its key, and a row for each of these texts. */
  function Narrow(col: string, texts: seq<string>): Grid {
    Grid([col], {col}, seq(|texts|, i requires 0 <= i < |texts| => map[col := Str(texts[i])]))
  }

  lemma NarrowLoaded(col: string, texts: seq<string>)
    requires forall i, j | 0 <= i < j < |texts| :: texts[i] != texts[j]
    ensures var g := Narrow(col, texts);
            && Loaded(g) && (Keyed(g) <==> col != PROTO)
            && forall i: nat | i < |texts| ::
                 && KeyAt(g, i) == (if col == PROTO then "undefined" else texts[i])
                 && PkFor(g.rows[i], g.pkCols) == if col == PROTO then map[] else g.rows[i]
  {
    var g := Narrow(col, texts);
    forall i | 0 <= i < |texts|
      ensures RowKeyFor(g.rows[i], g.pkCols) == if col == PROTO then "undefined" else texts[i]
      ensures PkFor(g.rows[i], g.pkCols) == if col == PROTO then map[] else g.rows[i]
    {
      KeyOfOne(g.rows[i], col);
    }
    hide RowKeyFor, PkFor;
  }

  /** One row under an inherited name takes down the page it is on: nothing is
      shown, the other row included, and nothing more can be done. */
  lemma InheritedRowBreaksPage(a: string, key: string, more: seq<Event>)
    requires Inherited(key) && !Inherited(a)
    ensures var g := Narrow("id", [a, key]);
            && Loaded(g) && Keyed(g)
            && Rendering(g, INITIAL, [0]) == Some([map["id" := Value(Str(a))]])
            && Rendering(g, INITIAL, [0, 1]) == None
            && Play(g, [PageReplaced([0, 1])] + more) == Session(INITIAL, [0, 1])
  {
    var g := Narrow("id", [a, key]);
    NarrowLoaded("id", [a, key]);
    assert KeyAt(g, 0) == a && KeyAt(g, 1) == key;
    assert g.rows[0] == map["id" := Str(a)] && |g.rows| == 2;
    hide Inherited, Loaded, KeyAt, Keyed, Narrow;
    PageOfOne(g, INITIAL, 0);
    NoTracks(g);
    RowRendersIff(g, INITIAL, 0);
    RowRendersIff(g, INITIAL, 1);
    assert 1 in [0 as nat, 1] && 0 in [0 as nat];
    hide RowRenders, Tracks;
    BrokenPage(g, [0, 1], more);
    assert ShownRow(g, INITIAL, 0) == map["id" := Value(Str(a))];
  }

  lemma NoTracks(g: Grid)
    requires Loaded(g)
    ensures Tracks(g, INITIAL)
  {
    hide Loaded;
  }

  /** A page that cannot be rendered is the end of the run. */
  lemma BrokenPage(g: Grid, page: seq<nat>, more: seq<Event>)
    requires Loaded(g) && OnGrid(g, page) && !Renders(g, INITIAL, page)
    ensures Rendering(g, INITIAL, page) == None && Play(g, [PageReplaced(page)] + more) == Session(INITIAL, page)
  {
    hide Loaded, Renders, Play;
    Opened(g, page);
    Down(g, [PageReplaced(page)], more);
  }

  lemma PageOfOne(g: Grid, st: State, i: nat)
    requires Loaded(g) && i < |g.rows| && OnGrid(g, [i])
    ensures Shown(g, st, [i]) == if IsDeleted(st, KeyAt(g, i)) then [] else [ShownRow(g, st, i)]
  {
    hide Loaded, KeyAt, IsDeleted, ShownRow;
    assert [i][..0] == [];
  }

  /** A delete outlives the filter under which it was made. */
  lemma HiddenDelete(a: string, b: string)
    requires a != b && !Inherited(a)
    ensures var g := Narrow("id", [a, b]);
            && Loaded(g) && Keyed(g)
            && var s := Play(g, [PageReplaced([0]), DeleteToggled(0), PageReplaced([1])]);
               && s.page == [1] && OnGrid(g, s.page)
               && s.st.deletes == map[a := map["id" := Str(a)]]
               && Outcome(g, s.st, 0, [], [a]) == [] && !TellsAll(g, s.st, s.page, [], [a])
  {
    var g := Narrow("id", [a, b]);
    NarrowLoaded("id", [a, b]);
    assert KeyAt(g, 0) == a && KeyAt(g, 1) == b;
    assert g.rows[0] == map["id" := Str(a)];
    assert OnGrid(g, [0]) && 0 in [0 as nat] && OnGrid(g, [1]);
    OpenedAndToggled(g, [0], 0);
    var evs := [PageReplaced([0]), DeleteToggled(0)];
    assert Play(g, evs).page == [0];
    Up(g, evs);
    hide Inherited, Loaded, KeyAt, PkFor, Keyed, Play, Renders, TrueToRows;
    PlaySnoc(g, evs, PageReplaced([1]));
    assert evs + [PageReplaced([1])] == [PageReplaced([0]), DeleteToggled(0), PageReplaced([1])];
    assert 0 !in [1 as nat];
  }

  /** With a key column named __proto__ one delete marks every row, and cannot be
      built. */
  lemma ProtoKeyMarksAll(a: string, b: string)
    requires a != b
    ensures var g := Narrow(PROTO, [a, b]);
            && Loaded(g)
            && var s := Play(g, [PageReplaced([0, 1]), DeleteToggled(0)]);
               && s.page == [0, 1] && IsDeleted(s.st, KeyAt(g, 0)) && IsDeleted(s.st, KeyAt(g, 1))
               && s.st.deletes == map["undefined" := map[]] && !NamesFit(g, s.st)
  {
    var g := Narrow(PROTO, [a, b]);
    NarrowLoaded(PROTO, [a, b]);
    assert KeyAt(g, 0) == KeyAt(g, 1) == "undefined";
    assert !Inherited("undefined");
    assert OnGrid(g, [0, 1]) && 0 in [0 as nat, 1];
    OpenedAndToggled(g, [0, 1], 0);
    hide Inherited, Loaded, KeyAt, PkFor, Keyed, Play;
    assert Pending(Play(g, [PageReplaced([0, 1]), DeleteToggled(0)]).st, "undefined");
  }
}
