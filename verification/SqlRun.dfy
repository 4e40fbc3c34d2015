/** Running built statements: what a statement's text does to the tables, the
    all-or-nothing transaction of ExecuteTx (internal/postgres/pgx.go) and
    ExecuteBatch (internal/postgres/manager.go). */
module SqlRun {
  import opened Base
  import opened SqlReader
  import opened SqlEval
  import opened Gate

  type Table = seq<Row>

  type Db = map<(string, string), Table>

  /** What the database decides by itself: whether a statement is accepted
      (constraints, types, permissions), and the columns a new row gets by default. */
  datatype Server = Server(accepts: (Db, Statement) -> bool, fill: Table -> Row)

  function Assigned(row: Row, sets: seq<(string, Value)>): Row
    decreases |sets|
  {
    if sets == [] then row else Assigned(row[sets[0].0 := sets[0].1], sets[1..])
  }

  function Zip(columns: seq<string>, values: seq<Value>): seq<(string, Value)>
    requires |columns| == |values|
  {
    if columns == [] then [] else [(columns[0], values[0])] + Zip(columns[1..], values[1..])
  }

  function Updated(rows: Table, sets: seq<(string, Value)>, where: Expr): Table {
    if rows == [] then []
    else Updated(rows[..|rows| - 1], sets, where)
         + [if Eval(where, rows[|rows| - 1]) == True then Assigned(rows[|rows| - 1], sets) else rows[|rows| - 1]]
  }

  function Without(rows: Table, where: Expr): Table {
    if rows == [] then []
    else Without(rows[..|rows| - 1], where) + if Eval(where, rows[|rows| - 1]) == True then [] else [rows[|rows| - 1]]
  }

  function Matches(rows: Table, where: Expr): nat {
    if rows == [] then 0
    else Matches(rows[..|rows| - 1], where) + if Eval(where, rows[|rows| - 1]) == True then 1 else 0
  }

  /** A statement's effect on its table, and the rows it affects. */
  function Effect(fill: Table -> Row, rows: Table, stmt: Statement): (Table, nat) {
    match stmt
    case Update(_, _, sets, where) => (Updated(rows, sets, where), Matches(rows, where))
    case Delete(_, _, where) => (Without(rows, where), Matches(rows, where))
    case Insert(_, _, columns, values) =>
      if |columns| != |values| then (rows, 0) else (rows + [Assigned(fill(rows), Zip(columns, values))], 1)
  }

  /** None: the statement fails. */
  function Run(server: Server, db: Db, stmt: Statement): Option<(Db, nat)> {
    var at := (stmt.schema, stmt.table);
    if at !in db || !server.accepts(db, stmt) then None
    else
      var (rows, n) := Effect(server.fill, db[at], stmt);
      Some((db[at := rows], n))
  }

  function RunText(server: Server, db: Db, text: string): Option<(Db, nat)> {
    match Read(text)
    case None => None
    case Some(stmt) => Run(server, db, stmt)
  }

  /** All of them in order, with the affected rows added up; None once one fails. */
  function RunAll(server: Server, db: Db, texts: seq<string>): Option<(Db, nat)> {
    if texts == [] then Some((db, 0))
    else
      match RunAll(server, db, texts[..|texts| - 1])
      case None => None
      case Some(p) =>
        match RunText(server, p.0, texts[|texts| - 1])
        case None => None
        case Some(q) => Some((q.0, p.1 + q.1))
  }

  lemma {:induction false} FailureStops(server: Server, db: Db, texts: seq<string>, n: nat)
    requires n <= |texts| && RunAll(server, db, texts[..n]).None?
    ensures RunAll(server, db, texts).None?
  {
    hide RunText;
    if n == |texts| {
      assert texts[..n] == texts;
    } else {
      assert texts[..|texts| - 1][..n] == texts[..n];
      FailureStops(server, db, texts[..|texts| - 1], n);
    }
  }

  datatype TxError = BeginFailed | StatementFailed(index: nat) | CommitFailed

  class Pool {
    const server: Server
    var db: Db

    constructor (server: Server, db: Db)
      ensures this.server == server && this.db == db
    {
      this.server, this.db := server, db;
    }

    /** Either every statement ran and the total is theirs, or nothing changed. */
    method ExecuteTx(stmts: seq<string>, beginOk: bool, commitOk: bool) returns (r: Result<nat, TxError>)
      modifies this`db
      ensures r.Ok? <==> beginOk && commitOk && RunAll(server, old(db), stmts).Some?
      ensures r.Ok? ==> (db, r.value) == RunAll(server, old(db), stmts).value
      ensures r.Err? ==> db == old(db)
      ensures r.Err? && r.error.StatementFailed? ==>
                r.error.index < |stmts| && RunAll(server, db, stmts[..r.error.index]).Some?
                && RunAll(server, db, stmts[..r.error.index + 1]).None?
    {
      hide RunText;
      if !beginOk { return Err(BeginFailed); }
      var work, total := db, 0;
      var i := 0;
      while i < |stmts|
        invariant 0 <= i <= |stmts|
        invariant RunAll(server, db, stmts[..i]) == Some((work, total))
        invariant db == old(db)
      {
        var done := RunText(server, work, stmts[i]);
        assert stmts[..i + 1][..i] == stmts[..i];
        if done.None? {
          FailureStops(server, db, stmts, i + 1);
          return Err(StatementFailed(i));
        }
        work, total := done.value.0, total + done.value.1;
        i := i + 1;
      }
      assert stmts[..i] == stmts;
      if !commitOk { return Err(CommitFailed); }
      db := work;
      r := Ok(total);
    }

    /** ExecuteBatch: the gate for the connection's tag, then one transaction. */
    method ExecuteBatch(tag: string, stmts: seq<string>, confirm: bool, readOnly: bool, openOk: bool, beginOk: bool, commitOk: bool)
      returns (r: Result<nat, BatchError>)
      modifies this`db
      ensures r.Ok? <==>
                || stmts == []
                || (LetsThrough(tag, readOnly, confirm, stmts) && openOk && beginOk && commitOk && RunAll(server, old(db), stmts).Some?)
      ensures r.Ok? ==> RunAll(server, old(db), stmts) == Some((db, r.value))
      ensures r.Err? ==> db == old(db)
      ensures r.Err? && r.error.Gated? <==> !LetsThrough(tag, readOnly, confirm, stmts)
      ensures r.Err? && r.error.Gated? ==>
                if exists i | 0 <= i < |stmts| :: Judge(tag, readOnly, stmts[i]).Refuse? then r.error.verdict.Blocked?
                else r.error.verdict.ConfirmationRequired?
    {
      hide RunText, Judge;
      if |stmts| == 0 { return Ok(0); }
      var v := GateBatch(tag, stmts, confirm, readOnly);
      if v != Passed { return Err(Gated(v)); }
      if !openOk { return Err(NotOpened); }
      var done := ExecuteTx(stmts, beginOk, commitOk);
      if done.Err? { return Err(Aborted(done.error)); }
      r := Ok(done.value);
    }
  }

  /** Every statement is allowed, or needs a confirmation that was given. */
  ghost predicate LetsThrough(tag: string, readOnly: bool, confirm: bool, stmts: seq<string>) {
    forall i | 0 <= i < |stmts| ::
      Judge(tag, readOnly, stmts[i]).Allow? || (Judge(tag, readOnly, stmts[i]).AllowIfConfirmed? && confirm)
  }

  datatype BatchError = Gated(verdict: BatchVerdict) | NotOpened | Aborted(error: TxError)
}
