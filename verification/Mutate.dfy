/** Typed row edits rendered as SQL text (internal/pg/mutate.go). The functions
    say which text each edit has; the methods are the builders, which grow
    slices in loops, proved to return that text. */
module Mutate {
  import opened Base
  import opened Text
  import opened SqlText
  import Sorting

  /** A Go map from column to JSON value. */
  type Fields = map<string, Cell>

  datatype RowChange = RowChange(op: string, pk: Fields, sets: Fields, values: Fields)

  datatype TableShape = TableShape(primaryKey: seq<string>, columns: set<string>)

  type Built<T> = Result<T, BuildError>

  // ----- the text of each piece -----

  function Assign(col: string, v: Cell): string {
    Quoted(col) + " = " + ValueLiteral(v)
  }

  /** One "col = value" per listed column. */
  function Assigns(cols: seq<string>, m: Fields): (r: seq<string>)
    requires forall c | c in cols :: c in m
    ensures |r| == |cols|
  {
    if cols == [] then [] else [Assign(cols[0], m[cols[0]])] + Assigns(cols[1..], m)
  }

  function QuotedAll(cols: seq<string>): (r: seq<string>)
    ensures |r| == |cols|
  {
    if cols == [] then [] else [Quoted(cols[0])] + QuotedAll(cols[1..])
  }

  function LiteralsOf(cols: seq<string>, m: Fields): (r: seq<string>)
    requires forall c | c in cols :: c in m
    ensures |r| == |cols|
  {
    if cols == [] then [] else [ValueLiteral(m[cols[0]])] + LiteralsOf(cols[1..], m)
  }

  /** `"schema"."name"` */
  function TableText(schema: string, name: string): string {
    Quoted(schema) + "." + Quoted(name)
  }

  /** Every primary-key column is present and non-null: the row is addressed. */
  predicate Addresses(shape: TableShape, pk: Fields) {
    pk != map[] &&
    forall c | c in shape.primaryKey :: c in pk && !pk[c].Null? && IsIdent(c)
  }

  /** Every column being written exists on the table. */
  predicate Writable(shape: TableShape, m: Fields) {
    m != map[] && forall c | c in m :: c in shape.columns && IsIdent(c)
  }

  predicate Valid(shape: TableShape, ch: RowChange) {
    match ch.op
    case "update" => Writable(shape, ch.sets) && Addresses(shape, ch.pk)
    case "delete" => Addresses(shape, ch.pk)
    case "insert" => Writable(shape, ch.values)
    case _ => false
  }

  // ----- what an error says -----

  predicate ColumnError(shape: TableShape, m: Fields, e: BuildError) {
    match e
    case UnknownColumn(c) => c in m && c !in shape.columns
    case InvalidIdentifier(c) => c in m && c in shape.columns && !IsIdent(c)
    case InvalidChange => false
  }

  predicate KeyError(shape: TableShape, pk: Fields, e: BuildError) {
    match e
    case InvalidChange => pk == map[] || exists c :: c in shape.primaryKey && (c !in pk || pk[c].Null?)
    case InvalidIdentifier(c) => c in shape.primaryKey && !IsIdent(c)
    case UnknownColumn(_) => false
  }

  predicate ChangeError(shape: TableShape, ch: RowChange, e: BuildError) {
    match ch.op
    case "update" =>
      if ch.sets == map[] then e == InvalidChange
      else if !Writable(shape, ch.sets) then ColumnError(shape, ch.sets, e)
      else KeyError(shape, ch.pk, e)
    case "delete" => KeyError(shape, ch.pk, e)
    case "insert" => if ch.values == map[] then e == InvalidChange else ColumnError(shape, ch.values, e)
    case _ => e == InvalidChange
  }

  predicate FirstBad(shape: TableShape, changes: seq<RowChange>, i: nat)
    requires i < |changes|
  {
    !Valid(shape, changes[i]) && forall j | 0 <= j < i :: Valid(shape, changes[j])
  }

  // ----- the text of a whole statement -----

  function KeyText(shape: TableShape, pk: Fields): string
    requires Addresses(shape, pk)
  {
    Join(Assigns(shape.primaryKey, pk), " AND ")
  }

  ghost function Keys(m: Fields): (r: seq<string>)
    ensures forall c :: c in r <==> c in m
    ensures Sorting.Ascending(r)
    ensures m != map[] ==> r != []
  {
    Sorting.SortedIsAscending(m.Keys);
    var r := Sorting.Sorted(m.Keys);
    assert m != map[] ==> exists c :: c in m && c in r by {
      if m != map[] { assert m.Keys != {}; var c :| c in m.Keys; assert c in r; }
    }
    r
  }

  ghost function SetText(m: Fields): string {
    Join(Assigns(Keys(m), m), ", ")
  }

  /** The statement a valid change is rendered as. */
  ghost function StatementText(table: string, shape: TableShape, ch: RowChange): string
    requires Valid(shape, ch)
  {
    match ch.op
    case "update" => "UPDATE " + table + " SET " + SetText(ch.sets) + " WHERE " + KeyText(shape, ch.pk)
    case "delete" => "DELETE FROM " + table + " WHERE " + KeyText(shape, ch.pk)
    case "insert" =>
      "INSERT INTO " + table + " (" + Join(QuotedAll(Keys(ch.values)), ", ") + ") VALUES ("
      + Join(LiteralsOf(Keys(ch.values), ch.values), ", ") + ")"
  }

  lemma {:induction false} AssignsSnoc(cols: seq<string>, last: string, m: Fields)
    requires forall c | c in cols + [last] :: c in m
    ensures Assigns(cols + [last], m) == Assigns(cols, m) + [Assign(last, m[last])]
  {
    if cols == [] {
      assert cols + [last] == [last];
    } else {
      assert (cols + [last])[1..] == cols[1..] + [last];
      AssignsSnoc(cols[1..], last, m);
    }
  }

  lemma {:induction false} InsertListsSnoc(cols: seq<string>, last: string, m: Fields)
    requires forall c | c in cols + [last] :: c in m
    ensures QuotedAll(cols + [last]) == QuotedAll(cols) + [Quoted(last)]
    ensures LiteralsOf(cols + [last], m) == LiteralsOf(cols, m) + [ValueLiteral(m[last])]
  {
    if cols == [] {
      assert cols + [last] == [last];
    } else {
      assert (cols + [last])[1..] == cols[1..] + [last];
      InsertListsSnoc(cols[1..], last, m);
    }
  }

  // ----- the builders -----

  /** sortedKeys: whatever order the map yields its keys in, the result is the
      one ascending enumeration. */
  method SortedKeys(m: Fields) returns (keys: seq<string>)
    ensures keys == Keys(m)
  {
    var todo := m.Keys;
    var found: seq<string> := [];
    while todo != {}
      invariant todo <= m.Keys
      invariant (set k | k in found) == m.Keys - todo
      invariant forall i, j | 0 <= i < j < |found| :: found[i] != found[j]
      decreases todo
    {
      var k :| k in todo;
      assert k !in set x | x in found;
      ghost var before := found;
      found, todo := found + [k], todo - {k};
      assert (set x | x in found) == (set x | x in before) + {k};
    }
    keys := Sorting.SortStrings(found);
    assert (set k | k in found) == m.Keys;
  }

  method BuildWhereByPK(shape: TableShape, pk: Fields) returns (r: Built<string>)
    ensures r.Ok? <==> Addresses(shape, pk)
    ensures r.Ok? ==> r.value == "WHERE " + KeyText(shape, pk)
    ensures r.Err? ==> KeyError(shape, pk, r.error)
  {
    if |pk| == 0 { return Err(InvalidChange); }
    var clauses: seq<string> := [];
    var i := 0;
    while i < |shape.primaryKey|
      invariant 0 <= i <= |shape.primaryKey|
      invariant forall c | c in shape.primaryKey[..i] :: c in pk && !pk[c].Null? && IsIdent(c)
      invariant clauses == Assigns(shape.primaryKey[..i], pk)
    {
      var col := shape.primaryKey[i];
      if col !in pk || pk[col].Null? { return Err(InvalidChange); }
      var q := QuoteIdent(col);
      if q.Err? { return Err(q.error); }
      assert shape.primaryKey[..i + 1] == shape.primaryKey[..i] + [col];
      AssignsSnoc(shape.primaryKey[..i], col, pk);
      clauses := clauses + [q.value + " = " + ValueLiteral(pk[col])];
      i := i + 1;
    }
    assert shape.primaryKey[..i] == shape.primaryKey;
    r := Ok("WHERE " + Join(clauses, " AND "));
  }

  /** The loop of buildUpdate: one assignment per sorted column. */
  method AssignClauses(shape: TableShape, m: Fields) returns (r: Built<seq<string>>)
    requires m != map[]
    ensures r.Ok? <==> Writable(shape, m)
    ensures r.Ok? ==> r.value == Assigns(Keys(m), m)
    ensures r.Err? ==> ColumnError(shape, m, r.error)
  {
    hide ValueLiteral, IsIdent;
    var assigns: seq<string> := [];
    var cols := SortedKeys(m);
    var i := 0;
    while i < |cols|
      invariant 0 <= i <= |cols|
      invariant forall c | c in cols[..i] :: c in shape.columns && IsIdent(c)
      invariant assigns == Assigns(cols[..i], m)
    {
      var col := cols[i];
      assert col in cols;
      if col !in shape.columns { return Err(UnknownColumn(col)); }
      var q := QuoteIdent(col);
      if q.Err? { return Err(q.error); }
      assert cols[..i + 1] == cols[..i] + [col];
      AssignsSnoc(cols[..i], col, m);
      assigns := assigns + [q.value + " = " + ValueLiteral(m[col])];
      i := i + 1;
    }
    assert cols[..i] == cols;
    r := Ok(assigns);
  }

  method BuildUpdate(table: string, shape: TableShape, ch: RowChange) returns (r: Built<string>)
    requires ch.op == "update"
    ensures r.Ok? <==> Valid(shape, ch)
    ensures r.Ok? ==> r.value == StatementText(table, shape, ch)
    ensures r.Err? ==> ChangeError(shape, ch, r.error)
  {
    hide Keys, Assigns, Join, IsIdent, ValueLiteral;
    if |ch.sets| == 0 { return Err(InvalidChange); }
    var assigns := AssignClauses(shape, ch.sets);
    if assigns.Err? { return Err(assigns.error); }
    var where := BuildWhereByPK(shape, ch.pk);
    if where.Err? { return Err(where.error); }
    r := Ok("UPDATE " + table + " SET " + Join(assigns.value, ", ") + " " + where.value);
  }

  method BuildDelete(table: string, shape: TableShape, ch: RowChange) returns (r: Built<string>)
    requires ch.op == "delete"
    ensures r.Ok? <==> Valid(shape, ch)
    ensures r.Ok? ==> r.value == StatementText(table, shape, ch)
    ensures r.Err? ==> ChangeError(shape, ch, r.error)
  {
    var where := BuildWhereByPK(shape, ch.pk);
    if where.Err? { return Err(where.error); }
    r := Ok("DELETE FROM " + table + " " + where.value);
  }

  /** The loop of buildInsert: quoted names and literals, column by column. */
  method InsertLists(shape: TableShape, m: Fields) returns (r: Built<(seq<string>, seq<string>)>)
    requires m != map[]
    ensures r.Ok? <==> Writable(shape, m)
    ensures r.Ok? ==> r.value == (QuotedAll(Keys(m)), LiteralsOf(Keys(m), m))
    ensures r.Err? ==> ColumnError(shape, m, r.error)
  {
    var names: seq<string>, vals: seq<string> := [], [];
    var cols := SortedKeys(m);
    var i := 0;
    while i < |cols|
      invariant 0 <= i <= |cols|
      invariant forall c | c in cols[..i] :: c in shape.columns && IsIdent(c)
      invariant names == QuotedAll(cols[..i]) && vals == LiteralsOf(cols[..i], m)
    {
      var col := cols[i];
      assert col in cols;
      if col !in shape.columns { return Err(UnknownColumn(col)); }
      var q := QuoteIdent(col);
      if q.Err? { return Err(q.error); }
      assert cols[..i + 1] == cols[..i] + [col];
      InsertListsSnoc(cols[..i], col, m);
      names := names + [q.value];
      vals := vals + [ValueLiteral(m[col])];
      i := i + 1;
    }
    assert cols[..i] == cols;
    r := Ok((names, vals));
  }

  method BuildInsert(table: string, shape: TableShape, ch: RowChange) returns (r: Built<string>)
    requires ch.op == "insert"
    ensures r.Ok? <==> Valid(shape, ch)
    ensures r.Ok? ==> r.value == StatementText(table, shape, ch)
    ensures r.Err? ==> ChangeError(shape, ch, r.error)
  {
    if |ch.values| == 0 { return Err(InvalidChange); }
    var lists := InsertLists(shape, ch.values);
    if lists.Err? { return Err(lists.error); }
    r := Ok("INSERT INTO " + table + " (" + Join(lists.value.0, ", ") + ") VALUES ("
            + Join(lists.value.1, ", ") + ")");
  }

  /** A whole batch is buildable: names are identifiers and every change is valid. */
  predicate Buildable(schema: string, name: string, shape: TableShape, changes: seq<RowChange>) {
    IsIdent(schema) && IsIdent(name) && forall i | 0 <= i < |changes| :: Valid(shape, changes[i])
  }

  lemma UnknownOp(shape: TableShape, ch: RowChange)
    requires ch.op != "update" && ch.op != "delete" && ch.op != "insert"
    ensures !Valid(shape, ch) && ChangeError(shape, ch, InvalidChange)
  {
  }

  /** One statement per change, in input order; one bad change fails the batch. */
  method BuildMutations(schema: string, name: string, shape: TableShape, changes: seq<RowChange>)
    returns (r: Built<seq<string>>)
    ensures r.Ok? <==> Buildable(schema, name, shape, changes)
    ensures r.Ok? ==> |r.value| == |changes|
    ensures r.Ok? ==> forall i | 0 <= i < |changes| :: r.value[i] == StatementText(TableText(schema, name), shape, changes[i])
    ensures r.Err? ==>
      (r.error == InvalidIdentifier(schema) && !IsIdent(schema)) || (r.error == InvalidIdentifier(name) && !IsIdent(name))
      || exists i | 0 <= i < |changes| :: FirstBad(shape, changes, i) && ChangeError(shape, changes[i], r.error)
  {
    hide Valid, StatementText, ChangeError, IsIdent;
    var qSchema := QuoteIdent(schema);
    if qSchema.Err? { return Err(qSchema.error); }
    var qName := QuoteIdent(name);
    if qName.Err? { return Err(qName.error); }
    var table := qSchema.value + "." + qName.value;
    var stmts: seq<string> := [];
    var i := 0;
    while i < |changes|
      invariant 0 <= i == |stmts| <= |changes|
      decreases |changes| - i
      invariant forall j | 0 <= j < i :: Valid(shape, changes[j])
      invariant forall j | 0 <= j < i :: stmts[j] == StatementText(table, shape, changes[j])
    {
      var stmt: Built<string>;
      match changes[i].op {
      case "update" => stmt := BuildUpdate(table, shape, changes[i]);
      case "delete" => stmt := BuildDelete(table, shape, changes[i]);
      case "insert" => stmt := BuildInsert(table, shape, changes[i]);
      case _ =>
        UnknownOp(shape, changes[i]);
        stmt := Err(InvalidChange);
      }
      if stmt.Err? {
        assert FirstBad(shape, changes, i);
        return Err(stmt.error);
      }
      stmts := stmts + [stmt.value];
      i := i + 1;
    }
    r := Ok(stmts);
  }
}
