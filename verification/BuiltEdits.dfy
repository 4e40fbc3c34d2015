/** What the lexical gate makes of the statements built from typed edits. */
module BuiltEdits {
  import opened Text
  import opened SqlText
  import opened Mutate
  import opened SqlCheck
  import opened WhereSurvival

  predicate Plain(s: string) {
    '/' !in s && '-' !in s
  }

  lemma QuotedIsPlain(n: string)
    requires IsIdent(n)
    ensures Plain(Quoted(n))
  {
    assert forall c | c in Quoted(n) :: c == '"' || c in n;
  }

  /** Leading keyword of a built statement. */
  lemma HeadOfVerb(w: string, rest: string)
    requires w != "" && Plain(w) && forall c | c in w :: 'A' <= c <= 'Z'
    ensures HeadWord(StripComments(w + " " + rest)) == w
  {
    hide StripBlocks, StripLines, UpperAscii, WordEnd;
    var p := w + " ";
    assert Plain(p);
    CleanPrefix(p, rest);
    CleanPrefix(p, StripBlocks(rest));
    var s := StripComments(w + " " + rest);
    assert s == w + " " + StripComments(rest);
    assert s[0] == w[0] && w[0] in w;
    assert TrimLeft(s) == s;
    assert forall i | 0 <= i < |w| :: s[i] == w[i] && w[i] in w;
    assert s[|w|] == ' ';
    assert WordEnd(s) == |w|;
    assert s[..|w|] == w;
    assert UpperAscii(w) == w;
  }

  function Verb(op: string): string {
    match op
    case "update" => "UPDATE"
    case "delete" => "DELETE"
    case _ => "INSERT"
  }

  /** A built statement after its leading keyword and blank. */
  ghost function AfterVerb(table: string, shape: TableShape, ch: RowChange): string
    requires Valid(shape, ch)
  {
    match ch.op
    case "update" => table + " SET " + SetText(ch.sets) + " WHERE " + KeyText(shape, ch.pk)
    case "delete" => "FROM " + table + " WHERE " + KeyText(shape, ch.pk)
    case "insert" =>
      "INTO " + table + " (" + Join(QuotedAll(Keys(ch.values)), ", ") + ") VALUES ("
      + Join(LiteralsOf(Keys(ch.values), ch.values), ", ") + ")"
  }

  lemma StatementShape(table: string, shape: TableShape, ch: RowChange)
    requires Valid(shape, ch)
    ensures StatementText(table, shape, ch) == Verb(ch.op) + " " + AfterVerb(table, shape, ch)
  {
    hide SetText, KeyText, Join, QuotedAll, LiteralsOf, Keys, Addresses, Writable;
    match ch.op
    case "update" => assert "UPDATE " == "UPDATE" + " ";
    case "delete" => assert "DELETE FROM " == "DELETE" + " " + "FROM ";
    case "insert" =>
      InsertShape(table, Join(QuotedAll(Keys(ch.values)), ", "), Join(LiteralsOf(Keys(ch.values), ch.values), ", "));
  }

  lemma InsertShape(table: string, names: string, literals: string)
    ensures "INSERT INTO " + table + " (" + names + ") VALUES (" + literals + ")"
         == "INSERT" + " " + ("INTO " + table + " (" + names + ") VALUES (" + literals + ")")
  {
    assert "INSERT INTO " == "INSERT" + " " + "INTO ";
  }

  /** Every built statement is classified as a write. */
  lemma BuiltIsDML(table: string, shape: TableShape, ch: RowChange)
    requires Valid(shape, ch)
    ensures Classify(StatementText(table, shape, ch)) == DML
  {
    hide HeadWord, StripComments, StatementText, AfterVerb, Addresses, Writable;
    StatementShape(table, shape, ch);
    HeadOfVerb(Verb(ch.op), AfterVerb(table, shape, ch));
  }

  /** Deletes are never flagged, whatever the key values contain. */
  lemma DeleteIsSafe(schema: string, name: string, shape: TableShape, ch: RowChange)
    requires IsIdent(schema) && IsIdent(name)
    requires Valid(shape, ch) && ch.op == "delete"
    ensures !IsDangerous(StatementText(TableText(schema, name), shape, ch))
  {
    hide IsDangerous, KeyText, Quoted, IsIdent, Addresses;
    QuotedIsPlain(schema);
    QuotedIsPlain(name);
    var a := "DELETE FROM " + TableText(schema, name);
    assert Plain(a);
    CleanHasNoPair(a, '/', '*');
    CleanHasNoPair(a, '-', '-');
    NoOpeners(a);
    assert a[0] == 'D';
    KeptIsSafe(a, KeyText(shape, ch.pk));
  }

  /** Inserts are never flagged, whatever the values contain. */
  lemma InsertIsSafe(table: string, shape: TableShape, ch: RowChange)
    requires Valid(shape, ch) && ch.op == "insert"
    ensures !IsDangerous(StatementText(table, shape, ch))
  {
    hide StripBlocks, StripLines, TrimRight, Upper, StatementText, AfterVerb;
    StatementShape(table, shape, ch);
    var tail := "NSERT" + " " + AfterVerb(table, shape, ch);
    var s := StatementText(table, shape, ch);
    assert s == "I" + tail;
    CleanPrefix("I", tail);
    CleanPrefix("I", StripBlocks(tail));
    var x := StripComments(tail);
    assert StripComments(s) == "I" + x;
    TrimRightConcat("I", x);
    assert TrimRight("I") == "I" by { TrimOne('I'); }
    var c := TrimSpace("I" + x);
    assert c != "" && c[0] == 'I';
    assert Upper(c)[0] == 'I';
  }

  lemma TrimOne(c: char)
    requires !IsSpace(c)
    ensures TrimRight([c]) == [c]
  {
  }

  // ----- updates -----

  function UpdateHead(schema: string, name: string): string {
    "UPDATE " + TableText(schema, name) + " SET "
  }

  lemma UpdateHeadIsPlain(schema: string, name: string)
    requires IsIdent(schema) && IsIdent(name)
    ensures Plain(UpdateHead(schema, name))
  {
    hide Quoted, IsIdent;
    QuotedIsPlain(schema);
    QuotedIsPlain(name);
  }

  /** Upper-casing keeps the keywords of `UPDATE t SET y`. */
  lemma UpdateKeywords(t: string, y: string)
    ensures "UPDATE " <= Upper("UPDATE " + t + " SET " + y)
    ensures Contains(Upper("UPDATE " + t + " SET " + y), " SET ")
  {
    hide Upper, Contains;
    assert "UPDATE " + t + " SET " + y == "UPDATE " + (t + " SET " + y);
    UpperConcat("UPDATE ", t + " SET " + y);
    UpperFixed("UPDATE ");
    var x := "UPDATE " + t;
    UpperConcat(x + " SET ", y);
    UpperConcat(x, " SET ");
    UpperFixed(" SET ");
    ContainsConcat(Upper(x), " SET ", Upper(y));
  }

  /** Trimming a text that starts with U and holds a non-blank after p. */
  lemma TrimKeepsHead(p: string, rest: string)
    requires p != "" && p[0] == 'U' && rest != "" && !IsSpace(rest[0])
    ensures p <= TrimSpace(p + rest)
  {
    hide TrimRight, IsSpace;
    NotSpaceU();
    assert (p + rest)[0] == 'U';
    assert p + rest == (p + [rest[0]]) + rest[1..];
    TrimRightConcat(p + [rest[0]], rest[1..]);
    TrimRightKeeps(p, rest[0]);
  }

  /** What the gate sees of an update's text after the SET keyword begins
      with the keywords it looks for. */
  lemma UpdateIsChecked(schema: string, name: string, rest: string)
    requires rest != "" && !IsSpace(rest[0])
    ensures "UPDATE " <= Upper(TrimSpace(UpdateHead(schema, name) + rest))
    ensures Contains(Upper(TrimSpace(UpdateHead(schema, name) + rest)), " SET ")
  {
    hide Upper, TrimSpace, Contains, IsSpace, TableText;
    var p := UpdateHead(schema, name);
    TrimKeepsHead(p, rest);
    var t := TrimSpace(p + rest);
    assert t == p + t[|p|..];
    UpdateKeywords(TableText(schema, name), t[|p|..]);
  }

  lemma NotSpaceU()
    ensures !IsSpace('U')
  {
  }

  lemma TrimRightKeeps(p: string, c: char)
    requires !IsSpace(c)
    ensures TrimRight(p + [c]) == p + [c]
  {
  }

  /** The SET clause starts with a quoted name, so its stripped remains do too. */
  lemma SetTextStarts(m: Fields)
    requires m != map[] && forall c | c in m :: IsIdent(c)
    ensures SetText(m) != "" && SetText(m)[0] == '"'
  {
    var cols := Keys(m);
    assert cols[0] in cols;
    var parts := Assigns(cols, m);
    assert parts[0] == Assign(cols[0], m[cols[0]]);
    assert parts[0][0] == '"';
  }

  lemma LeftoverStarts(s: string, k: string)
    requires s != "" && s[0] == '"' && HidesWhere(s, k)
    ensures Leftover(s, k) != "" && Leftover(s, k)[0] == '"'
  {
    BlockStep(s);
    LineStep(StripBlocks(s));
    assert BeforeBlock(s)[0] == '"';
    assert StripBlocks(s)[0] == '"';
    var t := " WHERE " + k;
    if LeavesBlockOpen(s) && CloseAt(t).Some? {
      LineStep(BeforeBlock(s) + (" " + StripBlocks(t[CloseAt(t).value + 2..])));
    }
  }

  /** Exactly when an update is flagged: a comment opened by a new value hides
      the WHERE keyword, and nothing else in what is left mentions one. */
  lemma UpdateDangerousIff(schema: string, name: string, shape: TableShape, ch: RowChange)
    requires IsIdent(schema) && IsIdent(name)
    requires Valid(shape, ch) && ch.op == "update"
    ensures IsDangerous(StatementText(TableText(schema, name), shape, ch)) <==>
              HidesWhere(SetText(ch.sets), KeyText(shape, ch.pk))
              && !MentionsWhere(Upper(TrimSpace(UpdateHead(schema, name) + Leftover(SetText(ch.sets), KeyText(shape, ch.pk)))))
  {
    hide Upper, TrimSpace, HidesWhere, Leftover, SetText, KeyText, StripComments, MentionsWhere, Addresses, Writable, IsSpace, TableText;
    var p, s, k := UpdateHead(schema, name), SetText(ch.sets), KeyText(shape, ch.pk);
    UpdateHeadIsPlain(schema, name);
    CleanPrefixHides(p, s, k);
    var text := StatementText(TableText(schema, name), shape, ch);
    assert text == (p + s) + " WHERE " + k;
    NotSpaceU();
    assert (p + s)[0] == 'U';
    if HidesWhere(s, k) {
      HiddenStrips(p + s, k);
      SetColumnsAreIdents(shape, ch);
      SetTextStarts(ch.sets);
      LeftoverStarts(s, k);
      NotSpaceQuote();
      UpdateIsChecked(schema, name, Leftover(s, k));
      var upper := Upper(TrimSpace(p + Leftover(s, k)));
      assert Cleaned(text) == upper;
      assert !("DELETE FROM" <= upper) || "UPDATE " <= upper;
    } else {
      KeptIsSafe(p + s, k);
    }
  }

  lemma SetColumnsAreIdents(shape: TableShape, ch: RowChange)
    requires Valid(shape, ch) && ch.op == "update"
    ensures ch.sets != map[] && forall c | c in ch.sets :: IsIdent(c)
  {
  }

  lemma NotSpaceQuote()
    ensures !IsSpace('"')
  {
  }

  // ----- the guard a caller can check on the values alone -----

  /** No new text holds a comment opener. */
  ghost predicate NoCommentText(m: Fields) {
    forall c | c in m && !m[c].Null? ::
      NoPair(CellText(m[c]), '/', '*') && NoPair(CellText(m[c]), '-', '-')
  }

  lemma {:induction false} EscapedNoPair(t: string, x: char, y: char)
    requires NoPair(t, x, y) && x != '\'' && y != '\''
    ensures NoPair(Escaped(t), x, y)
    ensures t != "" && t[0] != '\'' ==> Escaped(t) != "" && Escaped(t)[0] == t[0]
    ensures t != "" && t[0] == '\'' ==> Escaped(t) != "" && Escaped(t)[0] == '\''
    ensures t == "" ==> Escaped(t) == ""
  {
    if t != "" {
      var rest := t[1..];
      forall i | 0 <= i < |rest| - 1 ensures !(rest[i] == x && rest[i + 1] == y) {
        assert rest[i] == t[i + 1] && rest[i + 1] == t[i + 2];
      }
      EscapedNoPair(rest, x, y);
      var head := if t[0] == '\'' then "''" else [t[0]];
      assert NoPair(head, x, y);
      if rest != "" { assert !(t[0] == x && t[0 + 1] == y); }
      NoPairConcat(head, Escaped(rest), x, y);
    }
  }

  /** Pieces that neither hold the pair nor can complete it at either end. */
  ghost predicate Sealed(s: string, x: char, y: char) {
    NoPair(s, x, y) && s != "" && s[|s| - 1] != x && s[0] != y
  }

  lemma SealedConcat(a: string, b: string, x: char, y: char)
    requires Sealed(a, x, y) && Sealed(b, x, y)
    ensures Sealed(a + b, x, y)
  {
    NoPairConcat(a, b, x, y);
  }

  lemma AssignSealed(col: string, v: Cell, x: char, y: char)
    requires IsIdent(col) && (x == '/' || x == '-') && (y == '*' || y == '-')
    requires v.Null? || NoPair(CellText(v), x, y)
    ensures Sealed(Assign(col, v), x, y)
  {
    hide Escaped, IsIdent;
    QuotedIsPlain(col);
    CleanHasNoPair(Quoted(col), x, y);
    assert Sealed(Quoted(col), x, y);
    assert Sealed(" = ", x, y);
    SealedConcat(Quoted(col), " = ", x, y);
    if v.Null? {
      assert Sealed("NULL", x, y);
    } else {
      EscapedNoPair(CellText(v), x, y);
      NoPairConcat("'", Escaped(CellText(v)), x, y);
      NoPairConcat("'" + Escaped(CellText(v)), "'", x, y);
    }
    SealedConcat(Quoted(col) + " = ", ValueLiteral(v), x, y);
  }

  lemma {:induction false} AssignsSealed(cols: seq<string>, m: Fields, x: char, y: char)
    requires cols != [] && (x == '/' || x == '-') && (y == '*' || y == '-')
    requires forall c | c in cols :: c in m && IsIdent(c) && (m[c].Null? || NoPair(CellText(m[c]), x, y))
    ensures Sealed(Join(Assigns(cols, m), ", "), x, y)
  {
    hide Assign, IsIdent, NoPair;
    assert cols[0] in cols;
    AssignSealed(cols[0], m[cols[0]], x, y);
    var parts := Assigns(cols, m);
    if |cols| > 1 {
      assert parts[1..] == Assigns(cols[1..], m);
      AssignsSealed(cols[1..], m, x, y);
      SealedComma(x, y);
      SealedConcat(parts[0], ", ", x, y);
      SealedConcat(parts[0] + ", ", Join(parts[1..], ", "), x, y);
    }
  }

  lemma SealedComma(x: char, y: char)
    requires (x == '/' || x == '-') && (y == '*' || y == '-')
    ensures Sealed(", ", x, y)
  {
  }

  /** An update whose new texts hold neither comment opener is never flagged,
      whatever the key values contain. */
  lemma GuardedUpdateIsSafe(schema: string, name: string, shape: TableShape, ch: RowChange)
    requires IsIdent(schema) && IsIdent(name)
    requires Valid(shape, ch) && ch.op == "update" && NoCommentText(ch.sets)
    ensures !IsDangerous(StatementText(TableText(schema, name), shape, ch))
  {
    hide IsDangerous, IsIdent, NoPair, StatementText, Join, LeavesBlockOpen, LeavesLineOpen, StripBlocks, MentionsWhere, KeyText;
    var s := SetText(ch.sets);
    SetColumnsAreIdents(shape, ch);
    AssignsSealed(Keys(ch.sets), ch.sets, '/', '*');
    AssignsSealed(Keys(ch.sets), ch.sets, '-', '-');
    NoOpeners(s);
    assert !HidesWhere(s, KeyText(shape, ch.pk));
    UpdateDangerousIff(schema, name, shape, ch);
  }
}
