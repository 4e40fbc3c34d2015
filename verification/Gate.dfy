/** Tag policies (internal/policy/policy.go) and the policy half of ExecuteBatch
    (internal/postgres/manager.go). */
module Gate {
  import opened SqlCheck

  datatype Policy = Policy(
    dmlAllowed: bool,
    dmlRequiresConfirm: bool,
    ddlAllowed: bool,
    ddlRequiresConfirm: bool,
    dangerousAllowed: bool,
    dangerousRequiresConfirm: bool)

  const TAGS: set<string> := {"local", "dev", "staging", "production"}

  /** An unknown tag allows nothing. */
  function PolicyFor(tag: string): Policy {
    match tag
    case "local" => Policy(true, false, true, false, true, false)
    case "dev" => Policy(true, false, true, false, true, false)
    case "staging" => Policy(true, true, true, true, true, true)
    case "production" => Policy(true, true, false, false, false, false)
    case _ => Policy(false, false, false, false, false, false)
  }

  datatype Reason = ReadOnlyRole | DangerousNotAllowed | DdlNotAllowed | DmlNotAllowed

  datatype Decision = Allow | AllowIfConfirmed | Refuse(reason: Reason)

  function DecidePolicy(pol: Policy, class_: Class, dangerous: bool): Decision {
    if dangerous && !pol.dangerousAllowed then Refuse(DangerousNotAllowed)
    else if class_ == DDL && !pol.ddlAllowed then Refuse(DdlNotAllowed)
    else if class_ == DML && !pol.dmlAllowed then Refuse(DmlNotAllowed)
    else if dangerous && pol.dangerousRequiresConfirm then AllowIfConfirmed
    else if class_ == DDL && pol.ddlRequiresConfirm then AllowIfConfirmed
    else if class_ == DML && pol.dmlRequiresConfirm then AllowIfConfirmed
    else Allow
  }

  /** The verdict on one statement of a batch. */
  function Judge(tag: string, readOnly: bool, sql: string): Decision {
    if readOnly && (Classify(sql) == DML || Classify(sql) == DDL) then Refuse(ReadOnlyRole)
    else DecidePolicy(PolicyFor(tag), Classify(sql), IsDangerous(sql))
  }

  /** What a writer may do under each tag. Production refuses definitions and
      dangerous statements and asks to confirm other writes; staging asks to confirm
      all of these; local and dev ask nothing. */
  lemma WriterVerdict(tag: string, sql: string)
    requires tag in TAGS
    ensures var d, c, danger := Judge(tag, false, sql), Classify(sql), IsDangerous(sql);
            && (d.Refuse? <==> tag == "production" && (c == DDL || danger))
            && (d.Refuse? ==> d.reason == if danger then DangerousNotAllowed else DdlNotAllowed)
            && (d.AllowIfConfirmed? <==>
                || (tag == "staging" && (c == DML || c == DDL || danger))
                || (tag == "production" && c == DML && !danger))
  {
    hide Classify, IsDangerous;
  }

  /** A read-only role may not write or define anything, whatever the tag; of the
      rest it is treated as a writer. */
  lemma ReaderVerdict(tag: string, sql: string)
    ensures Judge(tag, true, sql) ==
            if Classify(sql) == DML || Classify(sql) == DDL then Refuse(ReadOnlyRole) else Judge(tag, false, sql)
  {
    hide Classify, IsDangerous;
  }

  datatype BatchVerdict = Passed | ConfirmationRequired | Blocked(reason: Reason)

  /** One refused statement blocks the whole batch, for the first refusal's
      reason; otherwise one that needs confirmation holds it. */
  method GateBatch(tag: string, stmts: seq<string>, confirm: bool, readOnly: bool) returns (v: BatchVerdict)
    ensures v.Blocked? <==> exists i | 0 <= i < |stmts| :: Judge(tag, readOnly, stmts[i]).Refuse?
    ensures v.Blocked? ==> exists i | 0 <= i < |stmts| ::
              Judge(tag, readOnly, stmts[i]) == Refuse(v.reason)
              && forall j | 0 <= j < i :: !Judge(tag, readOnly, stmts[j]).Refuse?
    ensures v.ConfirmationRequired? <==>
              !v.Blocked? && !confirm
              && exists i | 0 <= i < |stmts| :: Judge(tag, readOnly, stmts[i]).AllowIfConfirmed?
  {
    hide Judge;
    var needsConfirm := false;
    var i := 0;
    while i < |stmts|
      invariant 0 <= i <= |stmts|
      invariant forall j | 0 <= j < i :: !Judge(tag, readOnly, stmts[j]).Refuse?
      invariant needsConfirm <==> exists j | 0 <= j < i :: Judge(tag, readOnly, stmts[j]).AllowIfConfirmed?
    {
      var decision := Judge(tag, readOnly, stmts[i]);
      if decision.Refuse? { return Blocked(decision.reason); }
      if decision.AllowIfConfirmed? { needsConfirm := true; }
      i := i + 1;
    }
    v := if needsConfirm && !confirm then ConfirmationRequired else Passed;
  }

  /** A tag that is none of the four lets no write, definition or dangerous
      statement through. */
  lemma UnknownTagRefuses(tag: string, readOnly: bool, sql: string)
    requires tag !in TAGS
    ensures Judge(tag, readOnly, sql).Refuse? <==> Classify(sql) == DML || Classify(sql) == DDL || IsDangerous(sql)
  {
    hide Classify, IsDangerous;
    assert PolicyFor(tag) == PolicyFor("unknown");
  }
}
