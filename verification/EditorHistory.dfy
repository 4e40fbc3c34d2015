/** The pending changes told from the events alone: a cell holds the last value
    typed into it, a mark the parity of its toggles, a draft what was typed since
    it was added; and all of it is what gets stored. */
module EditorHistory {
  import opened SqlText
  import opened SqlEval
  import opened Mutate
  import opened SqlRun
  import opened Editor
  import opened EditorGrid
  import opened EditorWrites

  // ----- what the events say -----

  /** The row an event speaks of has this key. */
  ghost predicate OfRow(g: Grid, row: nat, key: string)
    requires Loaded(g)
  {
    row < |g.rows| && KeyAt(g, row) == key
  }

  /** The values typed into the row's cells since the last reset, later ones over
      earlier ones. */
  ghost function CellsTyped(g: Grid, evs: seq<Event>, key: string): Fields
    requires Loaded(g)
  {
    if evs == [] then map[]
    else
      var before := CellsTyped(g, evs[..|evs| - 1], key);
      match evs[|evs| - 1]
      case CellEdited(i, c, v) => if OfRow(g, i, key) then before[c := v] else before
      case AllReset => map[]
      case _ => before
  }

  /** The row was toggled an odd number of times since the last reset. */
  ghost predicate Marked(g: Grid, evs: seq<Event>, key: string)
    requires Loaded(g)
  {
    evs != [] &&
    var before := Marked(g, evs[..|evs| - 1], key);
    match evs[|evs| - 1]
    case DeleteToggled(i) => if OfRow(g, i, key) then !before else before
    case AllReset => false
    case _ => before
  }

  /** Drafts are numbered 1, 2, ... through the whole run. */
  function Added(evs: seq<Event>): nat {
    if evs == [] then 0 else Added(evs[..|evs| - 1]) + if evs[|evs| - 1].DraftAdded? then 1 else 0
  }

  /** The draft was added and neither removed nor reset since. */
  predicate Drafted(evs: seq<Event>, id: int) {
    evs != [] &&
    var before := Drafted(evs[..|evs| - 1], id);
    match evs[|evs| - 1]
    case DraftAdded => before || id == Added(evs)
    case DraftRemoved(removed) => before && id != removed
    case AllReset => false
    case _ => before
  }

  /** The values typed into the draft since it was added. */
  function DraftTyped(evs: seq<Event>, id: int): Fields {
    if evs == [] then map[]
    else
      var before := DraftTyped(evs[..|evs| - 1], id);
      match evs[|evs| - 1]
      case DraftAdded => if id == Added(evs) then map[] else before
      case DraftCellSet(d, c, v) => if d == id then before[c := v] else before
      case _ => before
  }

  /** Every event was possible when it came. */
  ghost predicate AllAllowed(g: Grid, evs: seq<Event>)
    requires Loaded(g)
  {
    forall n | 0 <= n < |evs| :: Allowed(g, Play(g, evs[..n]), evs[n])
  }

  lemma AllowedParts(g: Grid, evs: seq<Event>)
    requires Loaded(g) && AllAllowed(g, evs) && evs != []
    ensures AllAllowed(g, evs[..|evs| - 1]) && Allowed(g, Play(g, evs[..|evs| - 1]), evs[|evs| - 1])
  {
    hide Loaded, Allowed;
    var init := evs[..|evs| - 1];
    forall n | 0 <= n < |init| ensures Allowed(g, Play(g, init[..n]), init[n]) {
      assert init[..n] == evs[..n];
    }
  }

  // ----- the state is what they say -----

  ghost predicate RowsTold(g: Grid, evs: seq<Event>, st: State)
    requires Loaded(g)
  {
    forall key ::
      && (key in st.edits <==> CellsTyped(g, evs, key) != map[])
      && (key in st.edits ==> st.edits[key].sets == CellsTyped(g, evs, key))
      && (key in st.deletes <==> Marked(g, evs, key))
  }

  /** In every run the edits of a row are the values last typed into its cells, and
      it is marked for deletion when toggled an odd number of times. */
  lemma {:induction false} RowsAreTold(g: Grid, evs: seq<Event>)
    requires Loaded(g) && AllAllowed(g, evs)
    ensures RowsTold(g, evs, Play(g, evs).st)
  {
    hide Loaded, Allowed, AllAllowed, Step, Play;
    if evs == [] {
      EmptyRun(g);
    } else {
      var init, last := evs[..|evs| - 1], evs[|evs| - 1];
      AllowedParts(g, evs);
      RowsAreTold(g, init);
      PlayLast(g, evs);
      var s := Play(g, init);
      match last {
        case CellEdited(i, c, v) =>
          OnPage(g, init, last, i);
          EditTold(g, evs, s, i, c, v);
        case DeleteToggled(i) =>
          OnPage(g, init, last, i);
          ToggleTold(g, evs, s, i);
        case _ => OtherTold(g, evs, s, last);
      }
    }
  }

  lemma EmptyRun(g: Grid)
    requires Loaded(g)
    ensures Play(g, []) == Session(INITIAL, [])
  {
    hide Loaded;
  }

  lemma PlayLast(g: Grid, evs: seq<Event>)
    requires Loaded(g) && evs != []
    ensures Play(g, evs) == Step(g, Play(g, evs[..|evs| - 1]), evs[|evs| - 1])
  {
    hide Loaded, Step;
  }

  /** A row that can be edited has no inherited name for its key. */
  lemma OnPage(g: Grid, evs: seq<Event>, ev: Event, i: nat)
    requires Loaded(g) && Allowed(g, Play(g, evs), ev)
    requires (ev.CellEdited? && ev.row == i) || (ev.DeleteToggled? && ev.row == i)
    ensures i < |g.rows| && !Inherited(KeyAt(g, i))
  {
    hide Inherited, Loaded, KeyAt, Play, RowRenders, Tracks;
    ReachableTracks(g, evs);
    RowRendersIff(g, Play(g, evs).st, i);
  }

  lemma EditTold(g: Grid, evs: seq<Event>, s: Session, i: nat, col: string, value: Cell)
    requires Loaded(g) && evs != [] && evs[|evs| - 1] == CellEdited(i, col, value) && Allowed(g, s, CellEdited(i, col, value))
    requires i < |g.rows| && !Inherited(KeyAt(g, i)) && RowsTold(g, evs[..|evs| - 1], s.st)
    ensures RowsTold(g, evs, Step(g, s, CellEdited(i, col, value)).st)
  {
    hide Inherited, Loaded, KeyAt, PkFor, Allowed;
    var init := evs[..|evs| - 1];
    var st' := Step(g, s, CellEdited(i, col, value)).st;
    forall key
      ensures key in st'.edits <==> CellsTyped(g, evs, key) != map[]
      ensures key in st'.edits ==> st'.edits[key].sets == CellsTyped(g, evs, key)
      ensures key in st'.deletes <==> Marked(g, evs, key)
    {
      assert OfRow(g, i, key) <==> key == KeyAt(g, i);
      assert col in CellsTyped(g, init, key)[col := value];
    }
  }

  lemma ToggleTold(g: Grid, evs: seq<Event>, s: Session, i: nat)
    requires Loaded(g) && evs != [] && evs[|evs| - 1] == DeleteToggled(i) && Allowed(g, s, DeleteToggled(i))
    requires i < |g.rows| && !Inherited(KeyAt(g, i)) && RowsTold(g, evs[..|evs| - 1], s.st)
    ensures RowsTold(g, evs, Step(g, s, DeleteToggled(i)).st)
  {
    hide Inherited, Loaded, KeyAt, PkFor, Allowed;
    var st' := Step(g, s, DeleteToggled(i)).st;
    forall key
      ensures key in st'.edits <==> CellsTyped(g, evs, key) != map[]
      ensures key in st'.edits ==> st'.edits[key].sets == CellsTyped(g, evs, key)
      ensures key in st'.deletes <==> Marked(g, evs, key)
    {
      assert OfRow(g, i, key) <==> key == KeyAt(g, i);
    }
  }

  lemma OtherTold(g: Grid, evs: seq<Event>, s: Session, ev: Event)
    requires Loaded(g) && evs != [] && evs[|evs| - 1] == ev && Allowed(g, s, ev) && !ev.CellEdited? && !ev.DeleteToggled?
    requires RowsTold(g, evs[..|evs| - 1], s.st)
    ensures RowsTold(g, evs, Step(g, s, ev).st)
  {
    hide Inherited, Loaded, Allowed, SetInDrafts, DraftsWithout;
  }

  ghost predicate DraftsTold(evs: seq<Event>, st: State) {
    && st.nextDraftId == Added(evs) + 1
    && forall d :: d in st.drafts <==> Drafted(evs, d.id) && d.values == DraftTyped(evs, d.id)
  }

  /** In every run the drafts are those added and not removed, each holding the
      values last typed into it. */
  lemma {:induction false} DraftsAreTold(g: Grid, evs: seq<Event>)
    requires Loaded(g) && AllAllowed(g, evs)
    ensures DraftsTold(evs, Play(g, evs).st)
  {
    hide Loaded, Allowed, AllAllowed, Step, Play;
    if evs == [] {
      EmptyRun(g);
    } else {
      AllowedParts(g, evs);
      DraftsAreTold(g, evs[..|evs| - 1]);
      PlayLast(g, evs);
      ReachableTracks(g, evs[..|evs| - 1]);
      hide OnGrid;
      DraftStep(g, evs, Play(g, evs[..|evs| - 1]), evs[|evs| - 1]);
    }
  }

  lemma DraftStep(g: Grid, evs: seq<Event>, s: Session, ev: Event)
    requires Loaded(g) && Tracks(g, s.st) && evs != [] && evs[|evs| - 1] == ev && Allowed(g, s, ev)
    requires DraftsTold(evs[..|evs| - 1], s.st)
    ensures DraftsTold(evs, Step(g, s, ev).st)
  {
    var init := evs[..|evs| - 1];
    assert forall d | d in s.st.drafts :: d.id <= Added(init);
    hide Loaded, Tracks, Allowed, EditCell, ToggleDelete, PkFor, KeyAt;
    match ev {
      case DraftAdded =>
        forall d: DraftRow ensures d in AddDraft(s.st).drafts <==> Drafted(evs, d.id) && d.values == DraftTyped(evs, d.id) {
          if Drafted(init, d.id) { assert DraftRow(d.id, DraftTyped(init, d.id)) in s.st.drafts; }
        }
      case DraftCellSet(id, c, v) => TypedStep(evs, s.st, id, c, v);
      case DraftRemoved(id) => RemovedDraft(s.st.drafts, id);
      case _ =>
    }
  }

  lemma TypedStep(evs: seq<Event>, st: State, id: int, col: string, value: Cell)
    requires evs != [] && evs[|evs| - 1] == DraftCellSet(id, col, value) && DraftsTold(evs[..|evs| - 1], st)
    ensures DraftsTold(evs, SetDraftCell(st, id, col, value))
  {
    hide DraftTyped, Drafted, Added, SetInDrafts;
    var init := evs[..|evs| - 1];
    DraftSetTold(evs, id, col, value);
    forall d: DraftRow
      ensures d in SetInDrafts(st.drafts, id, col, value) <==> Drafted(evs, d.id) && d.values == DraftTyped(evs, d.id)
    {
      var before := DraftRow(d.id, DraftTyped(init, d.id));
      InSetDrafts(st.drafts, id, col, value, d);
      assert before in st.drafts <==> Drafted(init, d.id);
      assert forall x | x in st.drafts && x.id == d.id :: x == before;
    }
  }

  /** Where the drafts after typing come from. */
  lemma InSetDrafts(ds: seq<DraftRow>, id: int, col: string, value: Cell, d: DraftRow)
    ensures d in SetInDrafts(ds, id, col, value) <==>
              exists x | x in ds :: d == if x.id == id then DraftRow(id, x.values[col := value]) else x
  {
    hide SetInDrafts;
    var r := SetInDrafts(ds, id, col, value);
    if d in r {
      var i :| 0 <= i < |r| && r[i] == d;
      assert ds[i] in ds;
    }
    if x :| x in ds && d == if x.id == id then DraftRow(id, x.values[col := value]) else x {
      var i :| 0 <= i < |ds| && ds[i] == x;
      assert r[i] == d;
    }
  }

  /** What typing into a draft adds to the story. */
  lemma DraftSetTold(evs: seq<Event>, id: int, col: string, value: Cell)
    requires evs != [] && evs[|evs| - 1] == DraftCellSet(id, col, value)
    ensures var init := evs[..|evs| - 1];
            && Added(evs) == Added(init) && (forall d :: Drafted(evs, d) <==> Drafted(init, d))
            && forall d :: DraftTyped(evs, d) == if d == id then DraftTyped(init, d)[col := value] else DraftTyped(init, d)
  {
  }

  // ----- and it is what is stored -----

  /** Submitted, a loaded row is gone if it was marked, and otherwise holds the last
      value typed into each of its cells, and in the others what it held. */
  lemma HistoryIsStored(g: Grid, evs: seq<Event>, editKeys: seq<string>, deleteKeys: seq<string>, i: nat)
    requires Loaded(g) && AllAllowed(g, evs) && i < |g.rows|
    requires Lists(editKeys, Play(g, evs).st.edits) && Lists(deleteKeys, Play(g, evs).st.deletes)
    ensures Outcome(g, Play(g, evs).st, i, editKeys, deleteKeys)
            == if Marked(g, evs, KeyAt(g, i)) then [] else [DbRow(g.rows[i]) + DbRow(CellsTyped(g, evs, KeyAt(g, i)))]
  {
    RowsAreTold(g, evs);
    ReachableTracks(g, evs);
    RowRendersIff(g, Play(g, evs).st, i);
    NothingOver(DbRow(g.rows[i]));
    hide Inherited, Loaded, KeyAt, Play, AllAllowed, CellsTyped, Marked, Tracks, RowRenders, DbRow, OnGrid;
  }

  lemma NothingOver(row: Row)
    ensures row + DbRow(map[]) == row
  {
    assert DbRow(map[]) == map[];
  }

  lemma {:induction false} DraftIsThere(fill: Table -> Row, rows: Table, ds: seq<DraftRow>, d: DraftRow)
    requires d in ds && d.values != map[]
    ensures exists before: Table :: fill(before) + DbRow(d.values) in WithDrafts(fill, rows, ds)
  {
    hide DbRow;
    var init, last := ds[..|ds| - 1], ds[|ds| - 1];
    assert ds == init + [last];
    var table := WithDrafts(fill, rows, init);
    if d in init {
      DraftIsThere(fill, rows, init, d);
      var before: Table :| fill(before) + DbRow(d.values) in table;
      assert fill(before) + DbRow(d.values) in WithDrafts(fill, rows, ds);
    } else {
      assert fill(table) + DbRow(d.values) in WithDrafts(fill, rows, ds);
    }
  }

  /** Submitted, a draft that was added, typed into and not removed is a row with
      the last value typed into each of its cells. */
  lemma DraftIsStored(g: Grid, evs: seq<Event>, fill: Table -> Row, rows: Table, id: int)
    requires Loaded(g) && AllAllowed(g, evs) && Drafted(evs, id) && DraftTyped(evs, id) != map[]
    ensures exists row | row in WithDrafts(fill, rows, Play(g, evs).st.drafts) ::
              forall c | c in DraftTyped(evs, id) :: c in row && row[c] == Meaning(DraftTyped(evs, id)[c])
  {
    DraftsAreTold(g, evs);
    hide Loaded, AllAllowed, Play, Drafted, DraftTyped, WithDrafts;
    var ds, d := Play(g, evs).st.drafts, DraftRow(id, DraftTyped(evs, id));
    assert d in ds;
    DraftIsThere(fill, rows, ds, d);
    var before: Table :| fill(before) + DbRow(d.values) in WithDrafts(fill, rows, ds);
    assert forall c | c in d.values :: (fill(before) + DbRow(d.values))[c] == Meaning(d.values[c]);
  }

  // ----- the last value -----

  /** A value typed into a draft's cell is what the draft holds, unless another is
      typed there later. */
  lemma {:induction false} DraftLast(evs: seq<Event>, n: nat, id: int, col: string, value: Cell)
    requires n < |evs| && evs[n] == DraftCellSet(id, col, value)
    requires forall m | n < m < |evs| :: !(evs[m].DraftCellSet? && evs[m].id == id && evs[m].col == col)
    requires forall m | n < m < |evs| && evs[m].DraftAdded? :: Added(evs[..m + 1]) != id
    ensures col in DraftTyped(evs, id) && DraftTyped(evs, id)[col] == value
  {
    var k := |evs| - 1;
    assert evs[..k + 1] == evs;
    if n < k {
      var init := evs[..k];
      forall m | n < m < k && init[m].DraftAdded? ensures Added(init[..m + 1]) != id {
        assert init[..m + 1] == evs[..m + 1];
      }
      DraftLast(init, n, id, col, value);
    }
  }

  /** The same for a loaded row's cell, up to a reset. */
  lemma {:induction false} CellLast(g: Grid, evs: seq<Event>, n: nat, key: string, row: nat, col: string, value: Cell)
    requires Loaded(g) && n < |evs| && evs[n] == CellEdited(row, col, value) && OfRow(g, row, key)
    requires forall m | n < m < |evs| :: !evs[m].AllReset? && !(evs[m].CellEdited? && OfRow(g, evs[m].row, key) && evs[m].col == col)
    ensures col in CellsTyped(g, evs, key) && CellsTyped(g, evs, key)[col] == value
  {
    hide Loaded, OfRow;
    var k := |evs| - 1;
    if n < k { CellLast(g, evs[..k], n, key, row, col, value); }
  }
}
