/** A table under edit: what every run of editor operations keeps, what the page
    shows, and when that is what will be stored. */
module EditorGrid {
  import opened Base
  import opened Text
  import opened SqlText
  import opened SqlEval
  import opened Mutate
  import opened Editor

  /** The rows the page shows at one time or another in the run, each a value for
      every column. */
  datatype Grid = Grid(pkCols: seq<string>, columns: set<string>, rows: seq<Fields>)

  /** Row keys and pk objects hold every key column. */
  predicate Keyed(g: Grid) {
    PROTO !in g.pkCols
  }

  /** The table can be edited: it has key columns, they hold no NULL, and, where
      row keys hold every key column, no two rows share one. */
  ghost predicate Loaded(g: Grid) {
    && g.pkCols != []
    && (forall c | c in g.pkCols :: c in g.columns)
    && (forall i | 0 <= i < |g.rows| :: g.rows[i].Keys == g.columns)
    && (forall i, c | 0 <= i < |g.rows| && c in g.pkCols :: !g.rows[i][c].Null?)
    && (Keyed(g) ==> forall i, j | 0 <= i < j < |g.rows| :: RowKeyFor(g.rows[i], g.pkCols) != RowKeyFor(g.rows[j], g.pkCols))
  }

  ghost function KeyAt(g: Grid, i: nat): string
    requires Loaded(g) && i < |g.rows|
  {
    RowKeyFor(g.rows[i], g.pkCols)
  }

  lemma OneRowPerKey(g: Grid, i: nat, j: nat)
    requires Loaded(g) && Keyed(g) && i < |g.rows| && j < |g.rows|
    ensures KeyAt(g, i) == KeyAt(g, j) ==> i == j
  {
  }

  // ----- reachable states -----

  /** The pending changes, and the rows on the page. */
  datatype Session = Session(st: State, page: seq<nat>)

  datatype Event =
    | CellEdited(row: nat, col: string, value: Cell)
    | DeleteToggled(row: nat)
    | DraftAdded
    | DraftCellSet(id: int, col: string, value: Cell)
    | DraftRemoved(id: int)
    | AllReset
    // A filter change, a refresh or more rows: pending changes are kept.
    | PageReplaced(page: seq<nat>)

  ghost predicate OnGrid(g: Grid, page: seq<nat>) {
    forall i | i in page :: i < |g.rows|
  }

  /** Every cell of the row is looked up, whether or not the row is marked deleted. */
  ghost predicate RowRenders(g: Grid, st: State, i: nat)
    requires Loaded(g) && i < |g.rows|
  {
    forall c | c in g.rows[i] :: !CellOverride(st, KeyAt(g, i), c).Throws?
  }

  /** One lookup that throws takes the whole page down. */
  ghost predicate Renders(g: Grid, st: State, page: seq<nat>)
    requires Loaded(g)
  {
    forall i | i in page && i < |g.rows| :: RowRenders(g, st, i)
  }

  /** The page is up. An edit names a row on it and a column that is not part of
      the key; a draft's cell is of some column. */
  ghost predicate Allowed(g: Grid, s: Session, ev: Event)
    requires Loaded(g)
  {
    Renders(g, s.st, s.page) &&
    match ev
    case CellEdited(i, c, _) => i in s.page && i < |g.rows| && c in g.columns && c !in g.pkCols
    case DeleteToggled(i) => i in s.page && i < |g.rows|
    case DraftCellSet(_, c, _) => c in g.columns
    case PageReplaced(page) => forall i | i in page :: i < |g.rows|
    case _ => true
  }

  /** Anything else cannot happen. */
  ghost function Step(g: Grid, s: Session, ev: Event): Session
    requires Loaded(g)
  {
    if !Allowed(g, s, ev) then s
    else
      match ev
      case CellEdited(i, c, v) => s.(st := EditCell(s.st, KeyAt(g, i), PkFor(g.rows[i], g.pkCols), c, v))
      case DeleteToggled(i) => s.(st := ToggleDelete(s.st, KeyAt(g, i), PkFor(g.rows[i], g.pkCols)))
      case DraftAdded => s.(st := AddDraft(s.st))
      case DraftCellSet(id, c, v) => s.(st := SetDraftCell(s.st, id, c, v))
      case DraftRemoved(id) => s.(st := RemoveDraft(s.st, id))
      case AllReset => s.(st := Reset(s.st))
      case PageReplaced(page) => s.(page := page)
  }

  ghost function Play(g: Grid, evs: seq<Event>): Session
    requires Loaded(g)
  {
    if evs == [] then Session(INITIAL, []) else Step(g, Play(g, evs[..|evs| - 1]), evs[|evs| - 1])
  }

  /** A pending edit is of row i: it writes existing columns outside the key, and
      carries the row's key values. */
  ghost predicate EditOf(g: Grid, key: string, e: EditEntry, i: nat)
    requires Loaded(g)
  {
    && i < |g.rows| && KeyAt(g, i) == key && !Inherited(key)
    && e.pk == PkFor(g.rows[i], g.pkCols)
    && e.sets != map[] && e.sets.Keys <= g.columns && forall c | c in g.pkCols :: c !in e.sets
  }

  ghost predicate DeleteOf(g: Grid, key: string, pk: Fields, i: nat)
    requires Loaded(g)
  {
    i < |g.rows| && KeyAt(g, i) == key && !Inherited(key) && pk == PkFor(g.rows[i], g.pkCols)
  }

  /** Draft ids ascend and stay below the next one. */
  ghost predicate DraftsNumbered(ds: seq<DraftRow>, next: int) {
    && (forall i | 0 <= i < |ds| :: ds[i].id < next)
    && (forall i, j | 0 <= i < j < |ds| :: ds[i].id < ds[j].id)
  }

  ghost predicate DraftsFit(g: Grid, ds: seq<DraftRow>) {
    forall d | d in ds :: d.values.Keys <= g.columns
  }

  ghost predicate Tracks(g: Grid, st: State)
    requires Loaded(g)
  {
    && (forall k | k in st.edits :: IsEdit(g, k, st.edits[k]))
    && (forall k | k in st.deletes :: IsDelete(g, k, st.deletes[k]))
    && DraftsNumbered(st.drafts, st.nextDraftId)
    && DraftsFit(g, st.drafts)
  }

  ghost predicate IsEdit(g: Grid, key: string, e: EditEntry)
    requires Loaded(g)
  {
    exists i :: EditOf(g, key, e, i)
  }

  ghost predicate IsDelete(g: Grid, key: string, pk: Fields)
    requires Loaded(g)
  {
    exists i :: DeleteOf(g, key, pk, i)
  }

  lemma {:induction false} RemovedStayNumbered(ds: seq<DraftRow>, id: int, low: int, next: int)
    requires DraftsNumbered(ds, next) && forall i | 0 <= i < |ds| :: low < ds[i].id
    ensures var r := DraftsWithout(ds, id);
            DraftsNumbered(r, next) && forall i | 0 <= i < |r| :: low < r[i].id && r[i].id != id
  {
    if ds != [] {
      RemovedStayNumbered(ds[1..], id, ds[0].id, next);
    }
  }

  lemma SetDraftsFit(g: Grid, ds: seq<DraftRow>, id: int, col: string, value: Cell)
    requires DraftsFit(g, ds) && col in g.columns
    ensures DraftsFit(g, SetInDrafts(ds, id, col, value))
  {
    var r := SetInDrafts(ds, id, col, value);
    forall d | d in r ensures d.values.Keys <= g.columns {
      var i :| 0 <= i < |r| && r[i] == d;
      assert ds[i] in ds;
    }
  }

  lemma NewEdit(g: Grid, i: nat, col: string, value: Cell)
    requires Loaded(g) && i < |g.rows| && col in g.columns && col !in g.pkCols && !Inherited(KeyAt(g, i))
    ensures IsEdit(g, KeyAt(g, i), EditEntry(PkFor(g.rows[i], g.pkCols), map[][col := value]))
  {
    hide Inherited, PkFor, RowKeyFor;
    assert col in map[][col := value];
    assert EditOf(g, KeyAt(g, i), EditEntry(PkFor(g.rows[i], g.pkCols), map[][col := value]), i);
  }

  lemma GrownEdit(g: Grid, key: string, e: EditEntry, col: string, value: Cell)
    requires Loaded(g) && IsEdit(g, key, e) && col in g.columns && col !in g.pkCols
    ensures IsEdit(g, key, EditEntry(e.pk, e.sets[col := value]))
  {
    hide Inherited, PkFor, RowKeyFor, Loaded;
    var i :| EditOf(g, key, e, i);
    assert col in e.sets[col := value];
    assert EditOf(g, key, EditEntry(e.pk, e.sets[col := value]), i);
  }

  lemma EditTracks(g: Grid, st: State, i: nat, col: string, value: Cell)
    requires Loaded(g) && Tracks(g, st) && i < |g.rows| && col in g.columns && col !in g.pkCols && !Inherited(KeyAt(g, i))
    ensures Tracks(g, EditCell(st, KeyAt(g, i), PkFor(g.rows[i], g.pkCols), col, value))
  {
    hide Inherited, PkFor, RowKeyFor, IsEdit, IsDelete, DraftsNumbered;
    var key, pk := KeyAt(g, i), PkFor(g.rows[i], g.pkCols);
    var st' := EditCell(st, key, pk, col, value);
    if key in st.edits {
      GrownEdit(g, key, st.edits[key], col, value);
    } else {
      NewEdit(g, i, col, value);
    }
    assert forall k | k in st'.edits && k != key :: k in st.edits && st'.edits[k] == st.edits[k];
  }

  lemma ToggleTracks(g: Grid, st: State, i: nat)
    requires Loaded(g) && Tracks(g, st) && i < |g.rows| && !Inherited(KeyAt(g, i))
    ensures Tracks(g, ToggleDelete(st, KeyAt(g, i), PkFor(g.rows[i], g.pkCols)))
  {
    hide Inherited, PkFor, RowKeyFor, IsEdit, DraftsNumbered;
    var key, pk := KeyAt(g, i), PkFor(g.rows[i], g.pkCols);
    var st' := ToggleDelete(st, key, pk);
    assert IsDelete(g, key, pk) by {
      assert DeleteOf(g, key, pk, i);
    }
    hide Loaded, IsDelete;
    assert forall k | k in st'.deletes && k != key :: k in st.deletes && st'.deletes[k] == st.deletes[k];
  }

  lemma RemoveTracks(g: Grid, st: State, id: int)
    requires Loaded(g) && Tracks(g, st)
    ensures Tracks(g, RemoveDraft(st, id))
  {
    hide Loaded, IsEdit, IsDelete;
    RemovedDraft(st.drafts, id);
    RemovedStayNumbered(st.drafts, id, if st.drafts == [] then 0 else st.drafts[0].id - 1, st.nextDraftId);
  }

  /** Pending changes are never under an inherited name, so a row renders exactly
      when its key is none. */
  lemma RowRendersIff(g: Grid, st: State, i: nat)
    requires Loaded(g) && Tracks(g, st) && i < |g.rows|
    ensures RowRenders(g, st, i) <==> !Inherited(KeyAt(g, i))
    ensures Inherited(KeyAt(g, i)) ==> KeyAt(g, i) !in st.edits && KeyAt(g, i) !in st.deletes
  {
    hide Inherited, RowKeyFor, PkFor;
    var key := KeyAt(g, i);
    if key in st.edits { assert IsEdit(g, key, st.edits[key]); }
    if key in st.deletes { assert IsDelete(g, key, st.deletes[key]); }
    assert g.pkCols[0] in g.rows[i];
  }

  lemma StepTracks(g: Grid, s: Session, ev: Event)
    requires Loaded(g) && Tracks(g, s.st) && OnGrid(g, s.page)
    ensures Tracks(g, Step(g, s, ev).st) && OnGrid(g, Step(g, s, ev).page)
  {
    if Allowed(g, s, ev) {
      hide Loaded, Inherited, IsEdit, IsDelete, EditCell, ToggleDelete, RemoveDraft, KeyAt, PkFor, RowRenders;
      match ev {
        case CellEdited(i, c, v) =>
          RowRendersIff(g, s.st, i);
          EditTracks(g, s.st, i, c, v);
        case DeleteToggled(i) =>
          RowRendersIff(g, s.st, i);
          ToggleTracks(g, s.st, i);
        case DraftCellSet(id, c, v) => SetDraftsFit(g, s.st.drafts, id, c, v);
        case DraftRemoved(id) => RemoveTracks(g, s.st, id);
        case _ =>
      }
    }
  }

  /** In every reachable state each pending edit and delete belongs to a row that
      was on the page, and carries that row's pk; drafts hold existing columns. */
  lemma {:induction false} ReachableTracks(g: Grid, evs: seq<Event>)
    requires Loaded(g)
    ensures Tracks(g, Play(g, evs).st) && OnGrid(g, Play(g, evs).page)
  {
    hide Loaded, Step;
    if evs != [] {
      hide Tracks, OnGrid;
      ReachableTracks(g, evs[..|evs| - 1]);
      StepTracks(g, Play(g, evs[..|evs| - 1]), evs[|evs| - 1]);
    }
  }

  // ----- shown and written -----

  /** What the database holds for a row of cells. */
  function DbRow(m: Fields): Row {
    map c | c in m :: Meaning(m[c])
  }

  /** A row as the page shows it. */
  ghost function ShownRow(g: Grid, st: State, i: nat): map<string, Override>
    requires Loaded(g) && i < |g.rows|
  {
    map c | c in g.rows[i] ::
      var o := CellOverride(st, KeyAt(g, i), c);
      if o.Absent? then Value(g.rows[i][c]) else o
  }

  lemma PageSnoc(g: Grid, page: seq<nat>)
    requires page != []
    ensures OnGrid(g, page) <==> OnGrid(g, page[..|page| - 1]) && page[|page| - 1] < |g.rows|
    ensures forall i :: i in page <==> i in page[..|page| - 1] || i == page[|page| - 1]
  {
    var init, last := page[..|page| - 1], page[|page| - 1];
    assert page == init + [last];
    assert forall i :: i in page <==> i in init || i == last;
    assert last in page;
  }

  /** The page as shown, rows marked deleted left out. */
  ghost function Shown(g: Grid, st: State, page: seq<nat>): seq<map<string, Override>>
    requires Loaded(g) && OnGrid(g, page)
  {
    if page == [] then []
    else
      var i := page[|page| - 1];
      PageSnoc(g, page);
      Shown(g, st, page[..|page| - 1]) + if IsDeleted(st, KeyAt(g, i)) then [] else [ShownRow(g, st, i)]
  }

  /** What the page shows; None when it cannot be rendered. */
  ghost function Rendering(g: Grid, st: State, page: seq<nat>): Option<seq<map<string, Override>>>
    requires Loaded(g) && OnGrid(g, page)
  {
    if Renders(g, st, page) then Some(Shown(g, st, page)) else None
  }

  /** Row i with its edit, if that is among those applied. */
  ghost function Patched(g: Grid, st: State, i: nat, applied: seq<string>): Row
    requires Loaded(g) && i < |g.rows|
  {
    var key := KeyAt(g, i);
    if key in applied && Live(st, key) then DbRow(g.rows[i]) + DbRow(st.edits[key].sets) else DbRow(g.rows[i])
  }

  /** What becomes of row i once these edits and these deletes are applied. */
  ghost function Outcome(g: Grid, st: State, i: nat, applied: seq<string>, deleted: seq<string>): seq<Row>
    requires Loaded(g) && i < |g.rows|
  {
    if KeyAt(g, i) in deleted then [] else [Patched(g, st, i, applied)]
  }

  /** The first n rows, as stored then. */
  ghost function Written(g: Grid, st: State, n: nat, applied: seq<string>, deleted: seq<string>): seq<Row>
    requires Loaded(g) && n <= |g.rows|
  {
    if n == 0 then [] else Written(g, st, n - 1, applied, deleted) + Outcome(g, st, n - 1, applied, deleted)
  }

  /** The rows of the page, as stored then. */
  ghost function WrittenOn(g: Grid, st: State, page: seq<nat>, applied: seq<string>, deleted: seq<string>): seq<Row>
    requires Loaded(g) && OnGrid(g, page)
  {
    if page == [] then []
    else
      var i := page[|page| - 1];
      PageSnoc(g, page);
      WrittenOn(g, st, page[..|page| - 1], applied, deleted) + Outcome(g, st, i, applied, deleted)
  }

  /** Every cell shown is a cell value, and is the one stored. */
  ghost predicate Faithful(shown: seq<map<string, Override>>, rows: seq<Row>) {
    && |shown| == |rows|
    && forall i | 0 <= i < |rows| :: RowFaithful(shown[i], rows[i])
  }

  ghost predicate RowFaithful(shown: map<string, Override>, row: Row) {
    shown.Keys == row.Keys && forall c | c in row :: shown[c].Value? && Meaning(shown[c].cell) == row[c]
  }

  /** No row on the page has an inherited name for its key, and no column with
      such a name is left unedited in an edited row. */
  ghost predicate NoInheritedNames(g: Grid, st: State, page: seq<nat>)
    requires Loaded(g) && OnGrid(g, page)
  {
    forall i | i in page :: PlainRow(g, st, i)
  }

  ghost predicate PlainRow(g: Grid, st: State, i: nat)
    requires Loaded(g) && i < |g.rows|
  {
    && !Inherited(KeyAt(g, i))
    && forall c | c in g.columns && Inherited(c) && Live(st, KeyAt(g, i)) :: c in st.edits[KeyAt(g, i)].sets
  }

  lemma PlainRowFaithful(g: Grid, st: State, i: nat, editKeys: seq<string>)
    requires Loaded(g) && Tracks(g, st) && i < |g.rows| && Lists(editKeys, st.edits)
    requires !Inherited(KeyAt(g, i)) && KeyAt(g, i) !in st.deletes
    ensures RowFaithful(ShownRow(g, st, i), Patched(g, st, i, editKeys)) <==> PlainRow(g, st, i)
  {
    hide Inherited, RowKeyFor, EditOf;
    var key := KeyAt(g, i);
    if key in st.edits {
      LiveEdit(g, st, key);
      hide Loaded, Tracks;
      EditedRowFaithful(g, st, i, editKeys);
    }
  }

  lemma LiveEdit(g: Grid, st: State, key: string)
    requires Loaded(g) && Tracks(g, st) && key in st.edits
    ensures st.edits[key].sets != map[] && st.edits[key].sets.Keys <= g.columns
  {
    hide RowKeyFor, PkFor, Inherited, Loaded;
    assert IsEdit(g, key, st.edits[key]);
  }

  lemma EditedRowFaithful(g: Grid, st: State, i: nat, editKeys: seq<string>)
    requires Loaded(g) && i < |g.rows| && KeyAt(g, i) in st.edits && KeyAt(g, i) in editKeys
    requires Live(st, KeyAt(g, i)) && st.edits[KeyAt(g, i)].sets.Keys <= g.columns
    ensures RowFaithful(ShownRow(g, st, i), Patched(g, st, i, editKeys)) <==>
              forall c | c in g.columns && Inherited(c) :: c in st.edits[KeyAt(g, i)].sets
  {
    assert g.rows[i].Keys == g.columns;
    hide Inherited, KeyAt, Live, Loaded;
    var e := st.edits[KeyAt(g, i)];
    var shown, row := ShownRow(g, st, i), Patched(g, st, i, editKeys);
    assert row.Keys == shown.Keys == g.columns;
    forall c | c in g.columns
      ensures (shown[c].Value? && Meaning(shown[c].cell) == row[c]) <==> (Inherited(c) ==> c in e.sets)
    {
      hide Meaning;
    }
  }

  lemma {:induction false} ShownCount(g: Grid, st: State, page: seq<nat>, editKeys: seq<string>, deleteKeys: seq<string>)
    requires Loaded(g) && OnGrid(g, page) && Lists(deleteKeys, st.deletes)
    requires forall i | i in page :: !Inherited(KeyAt(g, i))
    ensures |Shown(g, st, page)| == |WrittenOn(g, st, page, editKeys, deleteKeys)|
  {
    hide Inherited, Loaded, ShownRow, Patched, KeyAt;
    if page != [] {
      PageSnoc(g, page);
      ShownCount(g, st, page[..|page| - 1], editKeys, deleteKeys);
    }
  }

  /** The page can be rendered exactly when no row on it has an inherited name for
      its key; it then shows as many rows as will be stored. */
  lemma RendersIff(g: Grid, st: State, page: seq<nat>, editKeys: seq<string>, deleteKeys: seq<string>)
    requires Loaded(g) && Tracks(g, st) && OnGrid(g, page) && Lists(deleteKeys, st.deletes)
    ensures Rendering(g, st, page).Some? <==> forall i | i in page :: !Inherited(KeyAt(g, i))
    ensures Rendering(g, st, page).Some? ==>
              |Rendering(g, st, page).value| == |WrittenOn(g, st, page, editKeys, deleteKeys)|
  {
    hide Inherited, Loaded, Tracks, KeyAt, RowRenders, Shown, WrittenOn, Lists;
    forall i | i in page ensures RowRenders(g, st, i) <==> !Inherited(KeyAt(g, i)) { RowRendersIff(g, st, i); }
    if forall i | i in page :: !Inherited(KeyAt(g, i)) { ShownCount(g, st, page, editKeys, deleteKeys); }
  }

  lemma {:induction false} ShownFaithful(g: Grid, st: State, page: seq<nat>, editKeys: seq<string>, deleteKeys: seq<string>)
    requires Loaded(g) && Tracks(g, st) && OnGrid(g, page) && Lists(editKeys, st.edits) && Lists(deleteKeys, st.deletes)
    requires forall i | i in page :: !Inherited(KeyAt(g, i))
    ensures Faithful(Shown(g, st, page), WrittenOn(g, st, page, editKeys, deleteKeys)) <==> forall i | i in page :: PlainRow(g, st, i)
  {
    hide Inherited, Loaded, Tracks, ShownRow, Patched, RowKeyFor, RowFaithful;
    if page != [] {
      var init, i := page[..|page| - 1], page[|page| - 1];
      PageSnoc(g, page);
      ShownFaithful(g, st, init, editKeys, deleteKeys);
      ShownCount(g, st, init, editKeys, deleteKeys);
      var key := KeyAt(g, i);
      var a, b := Shown(g, st, init), WrittenOn(g, st, init, editKeys, deleteKeys);
      if key in st.deletes {
        assert PlainRow(g, st, i);
        assert Shown(g, st, page) == a && WrittenOn(g, st, page, editKeys, deleteKeys) == b;
      } else {
        PlainRowFaithful(g, st, i, editKeys);
        hide PlainRow, KeyAt, Faithful;
        FaithfulSnoc(a, b, ShownRow(g, st, i), Patched(g, st, i, editKeys));
      }
    }
  }

  lemma FaithfulSnoc(a: seq<map<string, Override>>, b: seq<Row>, x: map<string, Override>, y: Row)
    requires |a| == |b|
    ensures Faithful(a + [x], b + [y]) <==> Faithful(a, b) && RowFaithful(x, y)
  {
    hide RowFaithful;
    if Faithful(a + [x], b + [y]) {
      forall i | 0 <= i < |a| ensures RowFaithful(a[i], b[i]) { assert RowFaithful((a + [x])[i], (b + [y])[i]); }
      assert RowFaithful((a + [x])[|a|], (b + [y])[|a|]);
    }
  }

  /** The page is rendered, and its rows are shown as they will be stored. */
  ghost predicate TrueToRows(g: Grid, st: State, page: seq<nat>, editKeys: seq<string>, deleteKeys: seq<string>)
    requires Loaded(g) && OnGrid(g, page)
  {
    var r := Rendering(g, st, page);
    r.Some? && Faithful(r.value, WrittenOn(g, st, page, editKeys, deleteKeys))
  }

  /** The rows are shown, as what becomes of them, cell by cell, exactly when no
      inherited name gets in the way. */
  lemma ShownIsWritten(g: Grid, st: State, page: seq<nat>, editKeys: seq<string>, deleteKeys: seq<string>)
    requires Loaded(g) && Tracks(g, st) && OnGrid(g, page) && Lists(editKeys, st.edits) && Lists(deleteKeys, st.deletes)
    ensures TrueToRows(g, st, page, editKeys, deleteKeys) <==> NoInheritedNames(g, st, page)
  {
    hide Inherited, Loaded, Tracks, Lists, Shown, WrittenOn, KeyAt, RowFaithful, Renders;
    RendersIff(g, st, page, editKeys, deleteKeys);
    if forall i | i in page :: !Inherited(KeyAt(g, i)) {
      ShownFaithful(g, st, page, editKeys, deleteKeys);
    } else {
      var i :| i in page && Inherited(KeyAt(g, i));
      assert !PlainRow(g, st, i);
    }
  }

  // ----- rows the page does not show -----

  /** The row is updated or deleted by what would be submitted. */
  ghost predicate Pending(st: State, key: string) {
    Live(st, key) || key in st.deletes
  }

  lemma PendingHasRow(g: Grid, st: State, key: string) returns (i: nat)
    requires Loaded(g) && Tracks(g, st) && Pending(st, key)
    ensures i < |g.rows| && KeyAt(g, i) == key && !Inherited(key)
    ensures (if key in st.deletes then st.deletes[key] else st.edits[key].pk) == PkFor(g.rows[i], g.pkCols)
  {
    hide Loaded, KeyAt, PkFor, Inherited;
    if key in st.deletes {
      assert IsDelete(g, key, st.deletes[key]);
      i :| DeleteOf(g, key, st.deletes[key], i);
    } else {
      assert IsEdit(g, key, st.edits[key]);
      i :| EditOf(g, key, st.edits[key], i);
    }
  }

  /** The row is not marked deleted, and an edit of it only sets what it holds. */
  ghost predicate Quiet(g: Grid, st: State, i: nat)
    requires Loaded(g) && i < |g.rows|
  {
    var key := KeyAt(g, i);
    && key !in st.deletes
    && (Live(st, key) ==>
          forall c | c in st.edits[key].sets :: c in g.rows[i] && Meaning(st.edits[key].sets[c]) == Meaning(g.rows[i][c]))
  }

  /** A row stays as it was loaded exactly when it is quiet: an edit can be
      pending and change nothing, since leaving a cell commits its text. */
  lemma KeptIff(g: Grid, st: State, i: nat, editKeys: seq<string>, deleteKeys: seq<string>)
    requires Loaded(g) && i < |g.rows| && Lists(editKeys, st.edits) && Lists(deleteKeys, st.deletes)
    ensures Outcome(g, st, i, editKeys, deleteKeys) == [DbRow(g.rows[i])] <==> Quiet(g, st, i)
  {
    hide Inherited, Meaning, KeyAt, Loaded;
    var key := KeyAt(g, i);
    if key !in st.deletes && Live(st, key) {
      OverlayIsIdle(g.rows[i], st.edits[key].sets);
      hide DbRow;
    }
  }

  lemma OverlayIsIdle(row: Fields, sets: Fields)
    ensures DbRow(row) + DbRow(sets) == DbRow(row) <==> forall c | c in sets :: c in row && Meaning(sets[c]) == Meaning(row[c])
  {
    hide Meaning;
    var a, b := DbRow(row), DbRow(sets);
    if a + b == a {
      forall c | c in sets ensures c in row && Meaning(sets[c]) == Meaning(row[c]) {
        assert c in a + b && (a + b)[c] == b[c];
      }
    }
  }

  /** The page tells all: its rows are shown as they will be stored, and every
      other loaded row stays as it is. */
  ghost predicate TellsAll(g: Grid, st: State, page: seq<nat>, editKeys: seq<string>, deleteKeys: seq<string>)
    requires Loaded(g) && OnGrid(g, page)
  {
    && TrueToRows(g, st, page, editKeys, deleteKeys)
    && forall i: nat | i < |g.rows| && i !in page :: Outcome(g, st, i, editKeys, deleteKeys) == [DbRow(g.rows[i])]
  }

  ghost predicate QuietOffPage(g: Grid, st: State, page: seq<nat>)
    requires Loaded(g)
  {
    forall i: nat | i < |g.rows| && i !in page :: Quiet(g, st, i)
  }

  /** The page tells all exactly when no inherited name gets in the way and no row
      off the page is marked deleted or has an edit that sets anything new. */
  lemma TellsAllIff(g: Grid, st: State, page: seq<nat>, editKeys: seq<string>, deleteKeys: seq<string>)
    requires Loaded(g) && Tracks(g, st) && OnGrid(g, page) && Lists(editKeys, st.edits) && Lists(deleteKeys, st.deletes)
    ensures TellsAll(g, st, page, editKeys, deleteKeys) <==> NoInheritedNames(g, st, page) && QuietOffPage(g, st, page)
  {
    ShownIsWritten(g, st, page, editKeys, deleteKeys);
    hide Loaded, Tracks, Lists, TrueToRows, NoInheritedNames, Quiet, Outcome, DbRow;
    forall i: nat | i < |g.rows| && i !in page
      ensures Outcome(g, st, i, editKeys, deleteKeys) == [DbRow(g.rows[i])] <==> Quiet(g, st, i)
    {
      KeptIff(g, st, i, editKeys, deleteKeys);
    }
  }

  // ----- row keys -----

  /** Key values without U+0001 give different rows different row keys. */
  lemma {:induction false} KeyStringsDecode(a: seq<string>, b: seq<string>)
    requires |a| == |b| && (forall s | s in a + b :: '\U{0001}' !in s) && Join(a, ROW_KEY_SEP) == Join(b, ROW_KEY_SEP)
    ensures a == b
  {
    if |a| == 1 {
      assert a == [a[0]] && b == [b[0]];
    } else if |a| > 1 {
      var x, y := Join(a[1..], ROW_KEY_SEP), Join(b[1..], ROW_KEY_SEP);
      assert a[0] in a + b && b[0] in a + b;
      SplitAtMark(a[0], x, b[0], y);
      assert forall s | s in a[1..] + b[1..] :: s in a + b;
      KeyStringsDecode(a[1..], b[1..]);
      assert a == [a[0]] + a[1..] && b == [b[0]] + b[1..];
    }
  }

  lemma SplitAtMark(s: string, x: string, t: string, y: string)
    requires '\U{0001}' !in s && '\U{0001}' !in t && s + ROW_KEY_SEP + x == t + ROW_KEY_SEP + y
    ensures s == t && x == y
  {
    var u, v := s + ROW_KEY_SEP + x, t + ROW_KEY_SEP + y;
    assert u[|s|] == '\U{0001}' && v[|t|] == '\U{0001}';
    assert forall i | 0 <= i < |s| :: u[i] == s[i] && u[i] != '\U{0001}';
    assert forall i | 0 <= i < |t| :: v[i] == t[i] && v[i] != '\U{0001}';
    assert |s| == |t|;
    assert u[..|s|] == s && v[..|t|] == t && u[|s| + 1..] == x && v[|t| + 1..] == y;
  }

  /** With U+0001 in a key value two different rows can share a row key. */
  lemma RowKeysCollide(a: string, b: string, c: string)
    ensures Join([a + ROW_KEY_SEP + b, c], ROW_KEY_SEP) == Join([a, b + ROW_KEY_SEP + c], ROW_KEY_SEP)
  {
    assert [a + ROW_KEY_SEP + b, c][1..] == [c] && [a, b + ROW_KEY_SEP + c][1..] == [b + ROW_KEY_SEP + c];
    assert a + ROW_KEY_SEP + b + ROW_KEY_SEP + c == a + ROW_KEY_SEP + (b + ROW_KEY_SEP + c);
  }
}
