/** A key-scoped edit the gate takes for one without a WHERE. FEATURES.md:54-55
    says that never happens; comments are stripped inside literals, so it does. */
module FlaggedEdit {
  import opened Text
  import opened SqlText
  import opened Mutate
  import opened SqlCheck
  import opened WhereSurvival
  import opened Gate
  import opened BuiltEdits
  import Submit
  import Sorting

  lemma {:induction false} NoNewline(s: string)
    requires '\n' !in s
    ensures FromNewline(s) == ""
  {
    if s != "" {
      assert s[0] in s;
      NoNewline(s[1..]);
    }
  }

  lemma {:induction false} BlocksPlain(p: string)
    requires '/' !in p
    ensures StripBlocks(p) == p && !LeavesBlockOpen(p)
  {
    if p != "" {
      assert p[0] in p;
      BlocksPlain(p[1..]);
    }
  }

  lemma {:induction false} EscapedPlain(s: string)
    requires '\'' !in s
    ensures Escaped(s) == s
  {
    if s != "" {
      assert s[0] in s;
      EscapedPlain(s[1..]);
    }
  }

  /** A mention of WHERE has a W after a blank. */
  lemma MentionHasPair(u: string)
    requires MentionsWhere(u)
    ensures !NoPair(u, ' ', 'W')
  {
    if Contains(u, " WHERE ") {
      var i := ContainsWhere(u, " WHERE ");
      assert u[i] == u[i..][0] == ' ' && u[i + 1] == u[i..][1] == 'W';
    } else {
      var i := |u| - 6;
      assert u[i] == u[i..][0] == ' ' && u[i + 1] == u[i..][1] == 'W';
    }
  }

  predicate NoBlankW(s: string) {
    forall i | 0 <= i < |s| - 1 :: !(s[i] == ' ' && (s[i + 1] == 'W' || s[i + 1] == 'w'))
  }

  lemma {:induction false} TrimLeftIsSuffix(s: string)
    ensures |TrimLeft(s)| <= |s| && TrimLeft(s) == s[|s| - |TrimLeft(s)|..]
  {
    if s != "" && IsSpace(s[0]) { TrimLeftIsSuffix(s[1..]); }
  }

  lemma NoBlankWTrimmed(s: string)
    requires NoBlankW(s)
    ensures NoBlankW(TrimSpace(s))
  {
    TrimLeftIsSuffix(s);
    assert TrimSpace(s) <= TrimLeft(s);
    hide TrimLeft, TrimRight;
    var n, t := |s| - |TrimLeft(s)|, TrimSpace(s);
    forall i | 0 <= i < |t| - 1 ensures !(t[i] == ' ' && (t[i + 1] == 'W' || t[i + 1] == 'w')) {
      assert t[i] == TrimLeft(s)[i] == s[n + i] && t[i + 1] == TrimLeft(s)[i + 1] == s[n + i + 1];
    }
  }

  /** Where no blank comes before a w, nothing mentions WHERE. */
  lemma NoBlankWNoMention(s: string)
    requires NoBlankW(s)
    ensures !MentionsWhere(Upper(TrimSpace(s)))
  {
    NoBlankWTrimmed(s);
    hide TrimSpace, MentionsWhere;
    var t := TrimSpace(s);
    var u := Upper(t);
    forall i | 0 <= i < |u| - 1 ensures !(u[i] == ' ' && u[i + 1] == 'W') {
      assert u[i] == UpperChar(t[i]) && u[i + 1] == UpperChar(t[i + 1]);
    }
    if MentionsWhere(u) { MentionHasPair(u); }
  }

  lemma NoBlankWConcat(a: string, b: string)
    requires NoBlankW(a) && NoBlankW(b) && (a == "" || b == "" || a[|a| - 1] != ' ' || (b[0] != 'W' && b[0] != 'w'))
    ensures NoBlankW(a + b)
  {
    var s := a + b;
    forall i | 0 <= i < |s| - 1 ensures !(s[i] == ' ' && (s[i + 1] == 'W' || s[i + 1] == 'w')) {
      if i + 1 < |a| { assert s[i] == a[i] && s[i + 1] == a[i + 1]; }
      else if i >= |a| { assert s[i] == b[i - |a|] && s[i + 1] == b[i + 1 - |a|]; }
    }
  }

  lemma QuotedHasNoBlank(n: string)
    requires IsIdent(n)
    ensures ' ' !in Quoted(n) && NoBlankW(Quoted(n)) && Quoted(n)[0] == '"' && Quoted(n)[|Quoted(n)| - 1] == '"'
  {
    assert forall c | c in Quoted(n) :: c == '"' || c in n;
    forall i | 0 <= i < |Quoted(n)| - 1 ensures Quoted(n)[i] != ' ' { assert Quoted(n)[i] in Quoted(n); }
  }

  /** `"col" = '` */
  function Lead(col: string): string {
    Quoted(col) + " = '"
  }

  /** What the comment leaves of the update: no w follows a blank in it, whatever
      the names are. */
  lemma RestHasNoBlankW(schema: string, name: string, col: string)
    requires IsIdent(schema) && IsIdent(name) && IsIdent(col)
    ensures NoBlankW(UpdateHead(schema, name) + (Lead(col) + " "))
  {
    QuotedHasNoBlank(schema);
    QuotedHasNoBlank(name);
    QuotedHasNoBlank(col);
    hide IsIdent, Quoted;
    NoBlankWConcat(Quoted(schema), ".");
    NoBlankWConcat(Quoted(schema) + ".", Quoted(name));
    NoBlankWConcat("UPDATE ", TableText(schema, name));
    NoBlankWConcat("UPDATE " + TableText(schema, name), " SET ");
    NoBlankWConcat(Quoted(col), " = '");
    NoBlankWConcat(Lead(col), " ");
    hide NoBlankW;
    NoBlankWConcat(UpdateHead(schema, name), Lead(col) + " ");
  }

  /** The edit that sets a column to two dashes. */
  function DashEdit(pk: Fields, col: string): RowChange {
    RowChange("update", pk, map[col := Str("--")], map[])
  }

  lemma OneKey(c: string, m: Fields)
    requires m.Keys == {c}
    ensures Keys(m) == [c]
  {
    Sorting.AscendingUnique(Keys(m), [c]);
  }

  lemma EditIsValid(shape: TableShape, pk: Fields, col: string)
    requires Addresses(shape, pk) && col in shape.columns && IsIdent(col)
    ensures Valid(shape, DashEdit(pk, col))
  {
    hide Addresses, IsIdent;
    assert col in DashEdit(pk, col).sets;
  }

  lemma EditText(pk: Fields, col: string)
    ensures SetText(DashEdit(pk, col).sets) == Lead(col) + "--'"
  {
    hide Keys, Assigns, Join;
    var m := DashEdit(pk, col).sets;
    OneKey(col, m);
    OneAssign(col, m);
    EscapedPlain("--");
    assert Assign(col, m[col]) == Lead(col) + "--'";
  }

  lemma OneAssign(c: string, m: Fields)
    requires c in m
    ensures Join(Assigns([c], m), ", ") == Assign(c, m[c])
  {
    assert Assigns([c], m) == [Assign(c, m[c])];
  }

  lemma {:induction false} StripBlocksNoNewline(s: string)
    requires '\n' !in s
    ensures '\n' !in StripBlocks(s)
    decreases |s|
  {
    if HasBlock(s) {
      var rest := AfterBlock(s);
      assert forall c | c in rest :: c in s;
      StripBlocksNoNewline(rest);
    } else if s != "" {
      assert s == [s[0]] + s[1..];
      StripBlocksNoNewline(s[1..]);
    }
  }

  /** Two dashes and a quote, with a key on the same line: all of it is comment. */
  lemma DashesHide(head: string, k: string)
    requires Plain(head) && '\n' !in k
    ensures HidesWhere(head + "--'", k)
    ensures Leftover(head + "--'", k) == head + " "
  {
    var value := "--'";
    var t := " WHERE " + k;
    assert value[2..] == "'";
    NoNewline("'");
    assert '\n' !in t;
    StripBlocksNoNewline(t);
    NoNewline(StripBlocks(t));
    BlocksPlain(value);
    assert LeavesLineOpen(value) && BeforeLine(value) == "";
    hide StripBlocks;
    CleanPrefixHides(head, value, k);
    assert "" + (" " + StripLines("")) == " ";
  }

  /** Setting any column to two dashes is flagged as dangerous, in every table
      and for every row whose key text is on one line; on a production connection
      the whole batch is refused. */
  lemma DashesLoseTheWhere(schema: string, name: string, shape: TableShape, pk: Fields, col: string)
    requires IsIdent(schema) && IsIdent(name) && col in shape.columns && IsIdent(col)
    requires Addresses(shape, pk) && '\n' !in KeyText(shape, pk)
    ensures Valid(shape, DashEdit(pk, col))
    ensures IsDangerous(StatementText(TableText(schema, name), shape, DashEdit(pk, col)))
    ensures Judge("production", false, StatementText(TableText(schema, name), shape, DashEdit(pk, col))) == Refuse(DangerousNotAllowed)
  {
    EditIsValid(shape, pk, col);
    EditText(pk, col);
    QuotedIsPlain(col);
    assert Plain(Lead(col));
    hide IsDangerous, SqlCheck.Classify, StatementText, TrimSpace, Upper, MentionsWhere, HidesWhere, Leftover, SetText, KeyText, Valid, UpdateHead, Addresses, Lead, NoBlankW, IsIdent;
    DashesHide(Lead(col), KeyText(shape, pk));
    RestHasNoBlankW(schema, name, col);
    NoBlankWNoMention(UpdateHead(schema, name) + (Lead(col) + " "));
    UpdateDangerousIff(schema, name, shape, DashEdit(pk, col));
    Submit.JudgedReason("production", StatementText(TableText(schema, name), shape, DashEdit(pk, col)));
  }
}
