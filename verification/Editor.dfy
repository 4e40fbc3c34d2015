/** The pending-change editor (web/src/pages/dataEditor.ts): edits and deletes of
    loaded rows by row key, and drafted rows. A JavaScript object used as a map
    is a map here, except that a lookup that misses it still finds the names
    every object inherits. */
module Editor {
  import opened Text
  import opened SqlText
  import opened Mutate

  datatype EditEntry = EditEntry(pk: Fields, sets: Fields)

  datatype DraftRow = DraftRow(id: int, values: Fields)

  datatype State = State(
    edits: map<string, EditEntry>, deletes: map<string, Fields>,
    drafts: seq<DraftRow>, nextDraftId: int)

  const INITIAL := State(map[], map[], [], 1)

  /** The names found on Object.prototype. */
  predicate Inherited(key: string) {
    key in {"constructor", "hasOwnProperty", "isPrototypeOf", "propertyIsEnumerable", "toLocaleString", "toString",
            "valueOf", "__proto__", "__defineGetter__", "__defineSetter__", "__lookupGetter__", "__lookupSetter__"}
  }

  /** key in m */
  predicate HasKey<T>(m: map<string, T>, key: string) {
    key in m || Inherited(key)
  }

  // ----- row keys -----

  const ROW_KEY_SEP := "\U{0001}"

  /** The one inherited name that cannot be assigned to: `pk["__proto__"] = v` and
      `colIndex["__proto__"] = i` store nothing. */
  const PROTO := "__proto__"

  /** String(cell) */
  function CellString(v: Cell): string {
    if v.Null? then "null" else CellText(v)
  }

  /** One part per key column; under PROTO the column index is lost, and
      String(row[undefined]) is what remains. */
  function KeyStrings(row: Fields, pkCols: seq<string>): (r: seq<string>)
    requires forall c | c in pkCols :: c in row
    ensures |r| == |pkCols|
  {
    if pkCols == [] then []
    else [if pkCols[0] == PROTO then "undefined" else CellString(row[pkCols[0]])] + KeyStrings(row, pkCols[1..])
  }

  function RowKeyFor(row: Fields, pkCols: seq<string>): string
    requires forall c | c in pkCols :: c in row
  {
    Join(KeyStrings(row, pkCols), ROW_KEY_SEP)
  }

  function PkFor(row: Fields, pkCols: seq<string>): Fields
    requires forall c | c in pkCols :: c in row
  {
    map c | c in pkCols && c != PROTO :: row[c]
  }

  // ----- the operations -----

  /** A first edit under an inherited name picks up an inherited object, which
      has neither pk nor set. */
  function EditCell(st: State, rowKey: string, pk: Fields, col: string, value: Cell): State {
    var entry :=
      if rowKey in st.edits then st.edits[rowKey]
      else if Inherited(rowKey) then EditEntry(map[], map[])
      else EditEntry(pk, map[]);
    st.(edits := st.edits[rowKey := EditEntry(entry.pk, entry.sets[col := value])])
  }

  /** Under an inherited name the lookup succeeds and the delete removes nothing. */
  function ToggleDelete(st: State, rowKey: string, pk: Fields): State {
    if HasKey(st.deletes, rowKey) then st.(deletes := st.deletes - {rowKey})
    else st.(deletes := st.deletes[rowKey := pk])
  }

  function AddDraft(st: State): State {
    st.(drafts := st.drafts + [DraftRow(st.nextDraftId, map[])], nextDraftId := st.nextDraftId + 1)
  }

  function SetInDrafts(ds: seq<DraftRow>, id: int, col: string, value: Cell): (r: seq<DraftRow>)
    ensures |r| == |ds|
    ensures forall i | 0 <= i < |ds| ::
              r[i] == if ds[i].id == id then DraftRow(id, ds[i].values[col := value]) else ds[i]
  {
    if ds == [] then []
    else [if ds[0].id == id then DraftRow(id, ds[0].values[col := value]) else ds[0]] + SetInDrafts(ds[1..], id, col, value)
  }

  function DraftsWithout(ds: seq<DraftRow>, id: int): seq<DraftRow> {
    if ds == [] then []
    else (if ds[0].id == id then [] else [ds[0]]) + DraftsWithout(ds[1..], id)
  }

  function SetDraftCell(st: State, id: int, col: string, value: Cell): State {
    st.(drafts := SetInDrafts(st.drafts, id, col, value))
  }

  function RemoveDraft(st: State, id: int): State {
    st.(drafts := DraftsWithout(st.drafts, id))
  }

  /** reset keeps the draft numbering. */
  function Reset(st: State): State {
    State(map[], map[], [], st.nextDraftId)
  }

  // ----- what is shown -----

  predicate IsDeleted(st: State, rowKey: string) {
    HasKey(st.deletes, rowKey)
  }

  /** Alien: an inherited object, which is no cell value. Throws: an inherited
      object is taken for the entry, and `in` is applied to the set it lacks. */
  datatype Override = Absent | Value(cell: Cell) | Alien | Throws

  function CellOverride(st: State, rowKey: string, col: string): Override {
    if rowKey in st.edits then
      if col in st.edits[rowKey].sets then Value(st.edits[rowKey].sets[col])
      else if Inherited(col) then Alien
      else Absent
    else if Inherited(rowKey) then Throws
    else Absent
  }

  /** After an edit the cell shows the new value and every other cell what it
      showed before; a later edit of the same cell wins. */
  lemma EditShows(st: State, rowKey: string, pk: Fields, col: string, value: Cell, k: string, c: string)
    requires !Inherited(rowKey) && !Inherited(c)
    ensures CellOverride(EditCell(st, rowKey, pk, col, value), k, c)
            == if k == rowKey && c == col then Value(value) else CellOverride(st, k, c)
    ensures IsDeleted(EditCell(st, rowKey, pk, col, value), k) == IsDeleted(st, k)
  {
    hide Inherited;
  }

  /** The first edit of a row hides what its columns with inherited names hold. */
  lemma EditHidesColumn(st: State, rowKey: string, pk: Fields, col: string, value: Cell, c: string)
    requires rowKey !in st.edits && !Inherited(rowKey) && Inherited(c) && c != col
    ensures CellOverride(st, rowKey, c) == Absent && CellOverride(EditCell(st, rowKey, pk, col, value), rowKey, c) == Alien
  {
    hide Inherited;
  }

  /** Toggling flips one row's mark, leaves the others and every cell alone, and
      toggling twice gives back a state in which the row was not marked. */
  lemma ToggleFlips(st: State, rowKey: string, pk: Fields, k: string, c: string)
    requires !Inherited(rowKey)
    ensures IsDeleted(ToggleDelete(st, rowKey, pk), k) == if k == rowKey then !IsDeleted(st, k) else IsDeleted(st, k)
    ensures CellOverride(ToggleDelete(st, rowKey, pk), k, c) == CellOverride(st, k, c)
    ensures !IsDeleted(st, rowKey) ==> ToggleDelete(ToggleDelete(st, rowKey, pk), rowKey, pk) == st
  {
    hide Inherited;
    if !IsDeleted(st, rowKey) {
      assert st.deletes[rowKey := pk] - {rowKey} == st.deletes;
    }
  }

  /** Typing into a draft's cell gives that draft the value, in place of an earlier
      one, and changes nothing else. */
  lemma DraftCellHolds(st: State, id: int, col: string, value: Cell, later: Cell)
    ensures var st' := SetDraftCell(st, id, col, value);
            && st'.edits == st.edits && st'.deletes == st.deletes && st'.nextDraftId == st.nextDraftId
            && |st'.drafts| == |st.drafts|
            && (forall i | 0 <= i < |st.drafts| && st.drafts[i].id != id :: st'.drafts[i] == st.drafts[i])
            && (forall i | 0 <= i < |st.drafts| && st.drafts[i].id == id ::
                  && st'.drafts[i].id == id && col in st'.drafts[i].values && st'.drafts[i].values[col] == value
                  && st'.drafts[i].values - {col} == st.drafts[i].values - {col})
            && SetDraftCell(st', id, col, later) == SetDraftCell(st, id, col, later)
  {
    TypedOver(st.drafts, id, col, value, later);
    hide SetInDrafts;
    forall i | 0 <= i < |st.drafts| && st.drafts[i].id == id
      ensures var new_ := SetInDrafts(st.drafts, id, col, value)[i];
              new_.values[col] == value && new_.values - {col} == st.drafts[i].values - {col}
    {
      Overwrite(st.drafts[i].values, col, value, later);
    }
  }

  lemma Overwrite(m: Fields, col: string, value: Cell, later: Cell)
    ensures m[col := value][col := later] == m[col := later] && m[col := value] - {col} == m - {col}
  {
  }

  lemma TypedOver(ds: seq<DraftRow>, id: int, col: string, value: Cell, later: Cell)
    ensures SetInDrafts(SetInDrafts(ds, id, col, value), id, col, later) == SetInDrafts(ds, id, col, later)
  {
    hide SetInDrafts;
    var first := SetInDrafts(ds, id, col, value);
    forall i | 0 <= i < |ds|
      ensures SetInDrafts(first, id, col, later)[i] == SetInDrafts(ds, id, col, later)[i]
    {
      Overwrite(ds[i].values, col, value, later);
    }
  }

  /** Edits and marks leave the drafts alone, and drafts come and go without
      touching edits and marks. */
  lemma RowsAndDraftsApart(st: State, rowKey: string, pk: Fields, col: string, value: Cell, id: int)
    ensures EditCell(st, rowKey, pk, col, value).drafts == ToggleDelete(st, rowKey, pk).drafts == st.drafts
    ensures EditCell(st, rowKey, pk, col, value).nextDraftId == ToggleDelete(st, rowKey, pk).nextDraftId == st.nextDraftId
    ensures AddDraft(st).edits == RemoveDraft(st, id).edits == st.edits
    ensures AddDraft(st).deletes == RemoveDraft(st, id).deletes == st.deletes
  {
    hide Inherited;
  }

  /** A row whose key is an inherited name counts as deleted, toggled or not. */
  lemma InheritedStaysDeleted(st: State, rowKey: string, pk: Fields)
    requires Inherited(rowKey) && rowKey !in st.deletes
    ensures IsDeleted(st, rowKey) && ToggleDelete(st, rowKey, pk) == st
  {
    hide Inherited;
    assert st.deletes - {rowKey} == st.deletes;
  }

  /** Removing a draft keeps every other draft, in order. */
  lemma {:induction false} RemovedDraft(ds: seq<DraftRow>, id: int)
    ensures forall d :: d in DraftsWithout(ds, id) <==> d in ds && d.id != id
  {
    if ds != [] {
      RemovedDraft(ds[1..], id);
      assert ds == [ds[0]] + ds[1..];
    }
  }

  // ----- what is submitted -----

  /** An edited row that yields an update. */
  predicate Live(st: State, key: string) {
    key in st.edits && !HasKey(st.deletes, key) && st.edits[key].sets != map[]
  }

  function UpdatesIn(st: State, keys: seq<string>): seq<RowChange>
    requires forall k | k in keys :: k in st.edits
  {
    if keys == [] then []
    else
      var init, last := keys[..|keys| - 1], keys[|keys| - 1];
      UpdatesIn(st, init)
      + if Live(st, last) then [RowChange("update", st.edits[last].pk, st.edits[last].sets, map[])] else []
  }

  function DeletesIn(st: State, keys: seq<string>): (r: seq<RowChange>)
    requires forall k | k in keys :: k in st.deletes
    ensures |r| == |keys|
  {
    if keys == [] then []
    else
      var init, last := keys[..|keys| - 1], keys[|keys| - 1];
      DeletesIn(st, init) + [RowChange("delete", st.deletes[last], map[], map[])]
  }

  function InsertsIn(ds: seq<DraftRow>): seq<RowChange> {
    if ds == [] then []
    else
      var last := ds[|ds| - 1];
      InsertsIn(ds[..|ds| - 1]) + if last.values == map[] then [] else [RowChange("insert", map[], map[], last.values)]
  }

  /** An order in which Object.entries may list an object's own keys. */
  ghost predicate Lists<T>(keys: seq<string>, m: map<string, T>) {
    && (forall k :: k in keys <==> k in m)
    && (forall i, j | 0 <= i < j < |keys| :: keys[i] != keys[j])
  }

  ghost function Changes(st: State, editKeys: seq<string>, deleteKeys: seq<string>): seq<RowChange>
    requires Lists(editKeys, st.edits) && Lists(deleteKeys, st.deletes)
  {
    UpdatesIn(st, editKeys) + DeletesIn(st, deleteKeys) + InsertsIn(st.drafts)
  }

  /** Updates of the edited rows not deleted, then deletes, then non-empty drafts. */
  method BuildChanges(st: State, editKeys: seq<string>, deleteKeys: seq<string>) returns (changes: seq<RowChange>)
    requires Lists(editKeys, st.edits) && Lists(deleteKeys, st.deletes)
    ensures changes == Changes(st, editKeys, deleteKeys)
  {
    changes := PushUpdates(st, editKeys);
    var i := 0;
    while i < |deleteKeys|
      invariant 0 <= i <= |deleteKeys|
      invariant changes == UpdatesIn(st, editKeys) + DeletesIn(st, deleteKeys[..i])
    {
      hide UpdatesIn;
      assert deleteKeys[..i + 1][..i] == deleteKeys[..i];
      changes := changes + [RowChange("delete", st.deletes[deleteKeys[i]], map[], map[])];
      i := i + 1;
    }
    assert deleteKeys[..i] == deleteKeys;
    changes := PushInserts(changes, st.drafts);
  }

  method PushUpdates(st: State, editKeys: seq<string>) returns (changes: seq<RowChange>)
    requires Lists(editKeys, st.edits)
    ensures changes == UpdatesIn(st, editKeys)
  {
    hide Inherited;
    changes := [];
    var i := 0;
    while i < |editKeys|
      invariant 0 <= i <= |editKeys|
      invariant changes == UpdatesIn(st, editKeys[..i])
    {
      var key := editKeys[i];
      assert editKeys[..i + 1][..i] == editKeys[..i] && editKeys[..i + 1][i] == key && key in st.edits;
      assert forall k | k in editKeys[..i + 1] :: k in st.edits;
      i := i + 1;
      if HasKey(st.deletes, key) { continue; }
      var e := st.edits[key];
      if |e.sets| == 0 { continue; }
      changes := changes + [RowChange("update", e.pk, e.sets, map[])];
    }
    assert editKeys[..i] == editKeys;
  }

  method PushInserts(before: seq<RowChange>, drafts: seq<DraftRow>) returns (changes: seq<RowChange>)
    ensures changes == before + InsertsIn(drafts)
  {
    changes := before;
    var i := 0;
    while i < |drafts|
      invariant 0 <= i <= |drafts|
      invariant changes == before + InsertsIn(drafts[..i])
    {
      var d := drafts[i];
      assert drafts[..i + 1][..i] == drafts[..i];
      i := i + 1;
      if |d.values| == 0 { continue; }
      changes := changes + [RowChange("insert", map[], map[], d.values)];
    }
    assert drafts[..i] == drafts;
  }

  /** The number shown beside the submit button. */
  function DirtyCount(st: State): nat {
    |set k | k in st.edits && Live(st, k)| + |st.deletes|
    + |set i | 0 <= i < |st.drafts| && st.drafts[i].values != map[]|
  }
}
