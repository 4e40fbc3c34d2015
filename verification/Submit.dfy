/** From typed edits to the gate's verdict: the path of MutateTableHandler
    (internal/server/handlers/mutate.go) up to the point where the batch runs. */
module Submit {
  import opened Base
  import opened SqlText
  import opened Mutate
  import opened SqlCheck
  import opened WhereSurvival
  import opened Gate
  import opened BuiltEdits

  /** An update whose own WHERE a new value hides. */
  ghost predicate LosesWhere(shape: TableShape, ch: RowChange)
    requires Valid(shape, ch)
  {
    ch.op == "update" && HidesWhere(SetText(ch.sets), KeyText(shape, ch.pk))
  }

  /** Only an update can be flagged, and only when a new value hides its WHERE. */
  lemma DangerousNeedsHiding(schema: string, name: string, shape: TableShape, ch: RowChange)
    requires IsIdent(schema) && IsIdent(name) && Valid(shape, ch)
    ensures IsDangerous(StatementText(TableText(schema, name), shape, ch)) ==> LosesWhere(shape, ch)
  {
    hide IsDangerous, StatementText, IsIdent, Addresses, Writable, HidesWhere, SetText, KeyText;
    match ch.op
    case "update" => UpdateDangerousIff(schema, name, shape, ch);
    case "delete" => DeleteIsSafe(schema, name, shape, ch);
    case "insert" => InsertIsSafe(TableText(schema, name), shape, ch);
  }

  /** On the four tags a writer's built statement is refused in one case only:
      it is flagged and the connection is production. */
  lemma BuiltJudgement(tag: string, schema: string, name: string, shape: TableShape, ch: RowChange)
    requires tag in TAGS && IsIdent(schema) && IsIdent(name) && Valid(shape, ch)
    ensures var sql := StatementText(TableText(schema, name), shape, ch);
            Judge(tag, false, sql).Refuse? <==> tag == "production" && IsDangerous(sql)
  {
    hide IsDangerous, SqlCheck.Classify, StatementText, IsIdent, Valid;
    BuiltIsDML(TableText(schema, name), shape, ch);
  }

  /** BuildMutations, then the gate, for a writer who has confirmed. */
  method SubmitConfirmed(schema: string, name: string, shape: TableShape, changes: seq<RowChange>, tag: string)
    returns (stmts: Built<seq<string>>, verdict: Option<BatchVerdict>)
    ensures stmts.Ok? <==> Buildable(schema, name, shape, changes)
    ensures stmts.Ok? <==> verdict.Some?
    ensures stmts.Ok? ==> |stmts.value| == |changes|
    // Blocked exactly on production, by a flagged statement.
    ensures stmts.Ok? && tag in TAGS ==>
      (verdict.value.Blocked? <==> tag == "production" && exists i | 0 <= i < |changes| :: IsDangerous(stmts.value[i]))
    // ... which takes an update that loses its WHERE;
    ensures stmts.Ok? && tag in TAGS && verdict.value.Blocked? ==>
      verdict.value.reason == DangerousNotAllowed && exists i | 0 <= i < |changes| :: Valid(shape, changes[i]) && LosesWhere(shape, changes[i])
    // ... so a batch whose new texts hold no comment opener always passes.
    ensures stmts.Ok? && tag in TAGS && (forall i | 0 <= i < |changes| :: changes[i].op == "update" ==> NoCommentText(changes[i].sets)) ==>
      verdict == Some(Passed)
  {
    hide IsDangerous, Judge, Valid, StatementText, LosesWhere, NoCommentText, IsIdent;
    stmts := BuildMutations(schema, name, shape, changes);
    if stmts.Err? { return stmts, None; }
    var v := GateBatch(tag, stmts.value, true, false);
    verdict := Some(v);
    if tag in TAGS {
      forall i | 0 <= i < |changes|
        ensures Judge(tag, false, stmts.value[i]).Refuse? <==> tag == "production" && IsDangerous(stmts.value[i])
        ensures IsDangerous(stmts.value[i]) ==> LosesWhere(shape, changes[i])
        ensures Judge(tag, false, stmts.value[i]).Refuse? ==> Judge(tag, false, stmts.value[i]) == Refuse(DangerousNotAllowed)
        ensures changes[i].op == "update" && NoCommentText(changes[i].sets) ==> !IsDangerous(stmts.value[i])
        ensures changes[i].op != "update" ==> !IsDangerous(stmts.value[i])
      {
        OneVerdict(tag, schema, name, shape, changes[i]);
      }
    }
  }

  lemma OneVerdict(tag: string, schema: string, name: string, shape: TableShape, ch: RowChange)
    requires tag in TAGS && IsIdent(schema) && IsIdent(name) && Valid(shape, ch)
    ensures var sql := StatementText(TableText(schema, name), shape, ch);
            && (Judge(tag, false, sql).Refuse? <==> tag == "production" && IsDangerous(sql))
            && (Judge(tag, false, sql).Refuse? ==> Judge(tag, false, sql) == Refuse(DangerousNotAllowed))
            && (IsDangerous(sql) ==> LosesWhere(shape, ch))
            && (ch.op == "update" && NoCommentText(ch.sets) ==> !IsDangerous(sql))
            && (ch.op != "update" ==> !IsDangerous(sql))
  {
    hide IsDangerous, StatementText, HidesWhere, NoCommentText, IsIdent, Addresses, Writable, SetText, KeyText;
    BuiltJudgement(tag, schema, name, shape, ch);
    DangerousNeedsHiding(schema, name, shape, ch);
    var sql := StatementText(TableText(schema, name), shape, ch);
    if tag == "production" && IsDangerous(sql) { JudgedReason(tag, sql); }
    if ch.op == "update" && NoCommentText(ch.sets) { GuardedUpdateIsSafe(schema, name, shape, ch); }
  }

  /** The same without the confirmation: on staging every batch that changes
      something is held; on production it is held too, unless a flagged statement
      blocks it; local and dev let it pass. */
  method SubmitUnconfirmed(schema: string, name: string, shape: TableShape, changes: seq<RowChange>, tag: string)
    returns (stmts: Built<seq<string>>, verdict: Option<BatchVerdict>)
    requires tag in TAGS
    ensures stmts.Ok? <==> Buildable(schema, name, shape, changes)
    ensures stmts.Ok? <==> verdict.Some?
    ensures stmts.Ok? ==> |stmts.value| == |changes|
    ensures stmts.Ok? && changes == [] ==> verdict == Some(Passed)
    ensures stmts.Ok? && changes != [] && tag == "staging" ==> verdict == Some(ConfirmationRequired)
    ensures stmts.Ok? && changes != [] && tag == "production" ==>
              if exists i | 0 <= i < |changes| :: IsDangerous(stmts.value[i])
              then verdict == Some(Blocked(DangerousNotAllowed)) else verdict == Some(ConfirmationRequired)
    ensures stmts.Ok? && (tag == "local" || tag == "dev") ==> verdict == Some(Passed)
  {
    hide IsDangerous, Judge, Valid, StatementText, IsIdent;
    stmts := BuildMutations(schema, name, shape, changes);
    if stmts.Err? { return stmts, None; }
    var v := GateBatch(tag, stmts.value, false, false);
    verdict := Some(v);
    forall i | 0 <= i < |changes|
      ensures var d := Judge(tag, false, stmts.value[i]);
              if tag == "production" && IsDangerous(stmts.value[i]) then d == Refuse(DangerousNotAllowed)
              else if tag == "production" || tag == "staging" then d == AllowIfConfirmed
              else d == Allow
    {
      BuiltNeedsConfirming(tag, schema, name, shape, changes[i]);
    }
    if changes != [] { assert Judge(tag, false, stmts.value[0]) == Judge(tag, false, stmts.value[0]); }
  }

  /** A writer's built statement is a write, so the tag and its danger decide. */
  lemma BuiltNeedsConfirming(tag: string, schema: string, name: string, shape: TableShape, ch: RowChange)
    requires tag in TAGS && IsIdent(schema) && IsIdent(name) && Valid(shape, ch)
    ensures var sql := StatementText(TableText(schema, name), shape, ch);
            Judge(tag, false, sql) ==
              if tag == "production" && IsDangerous(sql) then Refuse(DangerousNotAllowed)
              else if tag == "production" || tag == "staging" then AllowIfConfirmed
              else Allow
  {
    hide IsDangerous, SqlCheck.Classify, StatementText, IsIdent, Valid, Judge;
    BuiltIsDML(TableText(schema, name), shape, ch);
    WriterVerdict(tag, StatementText(TableText(schema, name), shape, ch));
    AllowedIsLeft(Judge(tag, false, StatementText(TableText(schema, name), shape, ch)));
  }

  lemma AllowedIsLeft(d: Decision)
    ensures !d.Refuse? && !d.AllowIfConfirmed? ==> d == Allow
    ensures d.AllowIfConfirmed? ==> d == AllowIfConfirmed
  {
  }

  lemma JudgedReason(tag: string, sql: string)
    requires IsDangerous(sql) && tag == "production"
    ensures Judge(tag, false, sql) == Refuse(DangerousNotAllowed)
  {
    hide IsDangerous;
  }
}
