/** Built statements read back as the edits they were built from. */
module ReadBack {
  import opened Base
  import opened Text
  import opened SqlText
  import opened SqlReader
  import opened SqlLexing
  import opened Mutate

  // ----- what an edit means -----

  /** Equality on every primary-key column. */
  function KeyExpr(cols: seq<string>, pk: Fields): Expr
    requires cols != [] && forall c | c in cols :: c in pk && !pk[c].Null?
  {
    var e := Equals(cols[0], CellText(pk[cols[0]]));
    if |cols| == 1 then e else And(e, KeyExpr(cols[1..], pk))
  }

  /** Each column with the text or NULL it is given. */
  function Pairs(cols: seq<string>, m: Fields): seq<(string, Value)>
    requires forall c | c in cols :: c in m
  {
    if cols == [] then [] else [(cols[0], Meaning(m[cols[0]]))] + Pairs(cols[1..], m)
  }

  function ValuesOf(cols: seq<string>, m: Fields): (r: seq<Value>)
    requires forall c | c in cols :: c in m
    ensures |r| == |cols|
  {
    if cols == [] then [] else [Meaning(m[cols[0]])] + ValuesOf(cols[1..], m)
  }

  ghost function Intent(schema: string, name: string, shape: TableShape, ch: RowChange): Statement
    requires Valid(shape, ch) && shape.primaryKey != []
  {
    match ch.op
    case "update" => Update(schema, name, Pairs(Keys(ch.sets), ch.sets), KeyExpr(shape.primaryKey, ch.pk))
    case "delete" => Delete(schema, name, KeyExpr(shape.primaryKey, ch.pk))
    case "insert" => Insert(schema, name, Keys(ch.values), ValuesOf(Keys(ch.values), ch.values))
  }

  // ----- tokens of the built text -----

  function ValueToken(v: Cell): Token {
    if v.Null? then Word("NULL") else Lit(CellText(v))
  }

  function AssignTokens(col: string, v: Cell): seq<Token> {
    [Ident(col), Sym('='), ValueToken(v)]
  }

  function AssignsTokens(cols: seq<string>, m: Fields): (r: seq<seq<Token>>)
    requires forall c | c in cols :: c in m
    ensures |r| == |cols|
    ensures forall i | 0 <= i < |cols| :: r[i] == AssignTokens(cols[i], m[cols[i]])
  {
    if cols == [] then [] else [AssignTokens(cols[0], m[cols[0]])] + AssignsTokens(cols[1..], m)
  }

  function NameTokens(cols: seq<string>): (r: seq<seq<Token>>)
    ensures |r| == |cols|
    ensures forall i | 0 <= i < |cols| :: r[i] == [Ident(cols[i])]
  {
    if cols == [] then [] else [[Ident(cols[0])]] + NameTokens(cols[1..])
  }

  function LiteralTokens(cols: seq<string>, m: Fields): (r: seq<seq<Token>>)
    requires forall c | c in cols :: c in m
    ensures |r| == |cols|
    ensures forall i | 0 <= i < |cols| :: r[i] == [ValueToken(m[cols[i]])]
  {
    if cols == [] then [] else [[ValueToken(m[cols[0]])]] + LiteralTokens(cols[1..], m)
  }

  lemma LexValue(v: Cell)
    ensures LexesTo(ValueLiteral(v), [ValueToken(v)])
  {
    if v.Null? { LexNull(); } else { LexLiteral(CellText(v)); }
  }

  lemma LexAssign(col: string, v: Cell)
    requires IsIdent(col)
    ensures LexesTo(Assign(col, v), AssignTokens(col, v))
  {
    LexIdent(col);
    LexEquals();
    LexValue(v);
    LexJoin2(Quoted(col), [Ident(col)], " = ", Sym('='), ValueLiteral(v), [ValueToken(v)]);
    assert [Ident(col)] + [Sym('=')] + [ValueToken(v)] == AssignTokens(col, v);
  }

  lemma {:induction false} AssignsAt(cols: seq<string>, m: Fields, i: nat)
    requires i < |cols| && forall c | c in cols :: c in m
    ensures Assigns(cols, m)[i] == Assign(cols[i], m[cols[i]])
  {
    if i > 0 { AssignsAt(cols[1..], m, i - 1); }
  }

  lemma {:induction false} InsertListsAt(cols: seq<string>, m: Fields, i: nat)
    requires i < |cols| && forall c | c in cols :: c in m
    ensures QuotedAll(cols)[i] == Quoted(cols[i])
    ensures LiteralsOf(cols, m)[i] == ValueLiteral(m[cols[i]])
  {
    if i > 0 { InsertListsAt(cols[1..], m, i - 1); }
  }

  lemma LexAssigns(cols: seq<string>, m: Fields, sep: string, tok: Token)
    requires cols != [] && forall c | c in cols :: c in m && IsIdent(c)
    requires Separates(sep, tok)
    ensures LexesTo(Join(Assigns(cols, m), sep), JoinTokens(AssignsTokens(cols, m), tok))
  {
    forall i | 0 <= i < |cols| ensures LexesTo(Assigns(cols, m)[i], AssignsTokens(cols, m)[i]) {
      assert cols[i] in cols;
      AssignsAt(cols, m, i);
      LexAssign(cols[i], m[cols[i]]);
    }
    LexJoin(Assigns(cols, m), AssignsTokens(cols, m), sep, tok);
  }

  lemma LexInsertLists(cols: seq<string>, m: Fields)
    requires cols != [] && forall c | c in cols :: c in m && IsIdent(c)
    ensures LexesTo(Join(QuotedAll(cols), ", "), JoinTokens(NameTokens(cols), Sym(',')))
    ensures LexesTo(Join(LiteralsOf(cols, m), ", "), JoinTokens(LiteralTokens(cols, m), Sym(',')))
  {
    LexComma();
    forall i | 0 <= i < |cols|
      ensures LexesTo(QuotedAll(cols)[i], NameTokens(cols)[i])
      ensures LexesTo(LiteralsOf(cols, m)[i], LiteralTokens(cols, m)[i])
    {
      assert cols[i] in cols;
      InsertListsAt(cols, m, i);
      LexIdent(cols[i]);
      LexValue(m[cols[i]]);
    }
    LexJoin(QuotedAll(cols), NameTokens(cols), ", ", Sym(','));
    LexJoin(LiteralsOf(cols, m), LiteralTokens(cols, m), ", ", Sym(','));
  }

  function TableTokens(schema: string, name: string): seq<Token> {
    [Ident(schema), Sym('.'), Ident(name)]
  }

  lemma LexTable(schema: string, name: string)
    requires IsIdent(schema) && IsIdent(name)
    ensures LexesTo(TableText(schema, name), TableTokens(schema, name))
  {
    LexIdent(schema);
    LexIdent(name);
    LexBareSym('.');
    LexJoin2(Quoted(schema), [Ident(schema)], ".", Sym('.'), Quoted(name), [Ident(name)]);
    assert [Ident(schema)] + [Sym('.')] + [Ident(name)] == TableTokens(schema, name);
  }

  /** A leading keyword and its blank. */
  lemma LexVerb(w: string)
    requires w != "" && forall c | c in w :: IsWordChar(c)
    ensures Leads(w + " ", [Word(w)])
  {
    forall rest: string ensures Lex(w + " " + rest) == Prepend([Word(w)], Lex(rest)) {
      assert w + " " + rest == w + (" " + rest);
      LexWord(w, " " + rest);
      LexBlank(rest);
    }
  }

  lemma LexVerb2(v: string, w: string)
    requires v != "" && forall c | c in v :: IsWordChar(c)
    requires w != "" && forall c | c in w :: IsWordChar(c)
    ensures Leads(v + " " + w + " ", [Word(v), Word(w)])
  {
    LexVerb(v);
    LexVerb(w);
    forall rest: string ensures Lex(v + " " + w + " " + rest) == Prepend([Word(v), Word(w)], Lex(rest)) {
      assert v + " " + w + " " + rest == (v + " ") + ((w + " ") + rest);
      assert Lex((v + " ") + ((w + " ") + rest)) == Prepend([Word(v)], Lex((w + " ") + rest));
      PrependTwice([Word(v)], [Word(w)], Lex(rest));
      assert [Word(v)] + [Word(w)] == [Word(v), Word(w)];
    }
  }

  // ----- parsing those tokens -----

  lemma ParseOneKey(c: string, text: string)
    ensures ParseAnd([Ident(c), Sym('='), Lit(text)]) == Some((Equals(c, text), []))
  {
    assert [Ident(c), Sym('='), Lit(text)][3..] == [];
  }

  lemma ParseMoreKeys(c: string, text: string, rest: seq<Token>)
    requires ParseAnd(rest).Some?
    ensures ParseAnd([Ident(c), Sym('='), Lit(text)] + [Word("AND")] + rest)
            == Some((And(Equals(c, text), ParseAnd(rest).value.0), ParseAnd(rest).value.1))
  {
    var ts := [Ident(c), Sym('='), Lit(text)] + [Word("AND")] + rest;
    assert ts[3..] == [Word("AND")] + rest;
    assert ParseAtom(ts) == Some((Equals(c, text), [Word("AND")] + rest));
    assert ([Word("AND")] + rest)[1..] == rest;
  }

  lemma {:induction false} ParseKeys(cols: seq<string>, pk: Fields)
    requires cols != [] && forall c | c in cols :: c in pk && !pk[c].Null?
    ensures ParseAnd(JoinTokens(AssignsTokens(cols, pk), Word("AND"))) == Some((KeyExpr(cols, pk), []))
  {
    hide ParseAnd;
    assert cols[0] in cols;
    var c, text := cols[0], CellText(pk[cols[0]]);
    var parts := AssignsTokens(cols, pk);
    assert parts[0] == [Ident(c), Sym('='), Lit(text)];
    if |cols| == 1 {
      ParseOneKey(c, text);
    } else {
      ParseKeys(cols[1..], pk);
      assert parts[1..] == AssignsTokens(cols[1..], pk);
      ParseMoreKeys(c, text, JoinTokens(parts[1..], Word("AND")));
    }
  }

  lemma ParseKeyWhere(cols: seq<string>, pk: Fields)
    requires cols != [] && forall c | c in cols :: c in pk && !pk[c].Null?
    ensures ParseWhere([Word("WHERE")] + JoinTokens(AssignsTokens(cols, pk), Word("AND")))
            == Some(KeyExpr(cols, pk))
  {
    var ts := JoinTokens(AssignsTokens(cols, pk), Word("AND"));
    ParseKeys(cols, pk);
    assert ([Word("WHERE")] + ts)[1..] == ts;
  }

  lemma ParseOneSet(c: string, t: Token, rest: seq<Token>)
    requires IsValue(t) && (rest == [] || rest[0] != Sym(','))
    ensures ParseSets([Ident(c), Sym('='), t] + rest) == Some(([(c, ValueOf(t))], rest))
  {
    assert ([Ident(c), Sym('='), t] + rest)[3..] == rest;
  }

  lemma ParseMoreSets(c: string, t: Token, rest: seq<Token>)
    requires IsValue(t) && ParseSets(rest).Some?
    ensures ParseSets([Ident(c), Sym('='), t] + [Sym(',')] + rest)
            == Some(([(c, ValueOf(t))] + ParseSets(rest).value.0, ParseSets(rest).value.1))
  {
    assert ([Ident(c), Sym('='), t] + [Sym(',')] + rest)[4..] == rest;
  }

  lemma {:induction false} ParseSetsOf(cols: seq<string>, m: Fields, rest: seq<Token>)
    requires cols != [] && forall c | c in cols :: c in m
    requires rest == [] || rest[0] != Sym(',')
    ensures ParseSets(JoinTokens(AssignsTokens(cols, m), Sym(',')) + rest) == Some((Pairs(cols, m), rest))
  {
    hide ParseSets;
    assert cols[0] in cols;
    var c, t := cols[0], ValueToken(m[cols[0]]);
    var parts := AssignsTokens(cols, m);
    var ts := JoinTokens(parts, Sym(',')) + rest;
    assert parts[0] == [Ident(c), Sym('='), t];
    if |cols| == 1 {
      ParseOneSet(c, t, rest);
      assert ts == [Ident(c), Sym('='), t] + rest;
      assert cols[1..] == [] && Pairs(cols, m) == [(c, ValueOf(t))];
    } else {
      ParseSetsOf(cols[1..], m, rest);
      assert parts[1..] == AssignsTokens(cols[1..], m);
      var more := JoinTokens(parts[1..], Sym(',')) + rest;
      ParseMoreSets(c, t, more);
      assert ts == [Ident(c), Sym('='), t] + [Sym(',')] + more;
    }
  }

  lemma {:induction false} ParseNamesOf(cols: seq<string>, rest: seq<Token>)
    requires cols != []
    requires rest == [] || rest[0] != Sym(',')
    ensures ParseNames(JoinTokens(NameTokens(cols), Sym(',')) + rest) == Some((cols, rest))
  {
    var parts := NameTokens(cols);
    var ts := JoinTokens(parts, Sym(',')) + rest;
    if |cols| == 1 {
      assert ts == [Ident(cols[0])] + rest;
      assert rest != [] ==> ts[1] == rest[0];
      assert ts[1..] == rest;
      assert [cols[0]] == cols;
    } else {
      ParseNamesOf(cols[1..], rest);
      assert parts[1..] == NameTokens(cols[1..]);
      var more := JoinTokens(parts[1..], Sym(',')) + rest;
      assert ts == [Ident(cols[0])] + [Sym(',')] + more;
      assert ts[2..] == more;
      assert [cols[0]] + cols[1..] == cols;
    }
  }

  lemma ParseOneValue(t: Token, rest: seq<Token>)
    requires IsValue(t) && (rest == [] || rest[0] != Sym(','))
    ensures ParseValues([t] + rest) == Some(([ValueOf(t)], rest))
  {
    assert ([t] + rest)[1..] == rest;
  }

  lemma ParseMoreValues(t: Token, rest: seq<Token>)
    requires IsValue(t) && ParseValues(rest).Some?
    ensures ParseValues([t] + [Sym(',')] + rest)
            == Some(([ValueOf(t)] + ParseValues(rest).value.0, ParseValues(rest).value.1))
  {
    assert ([t] + [Sym(',')] + rest)[2..] == rest;
  }

  lemma {:induction false} ParseValuesOf(cols: seq<string>, m: Fields, rest: seq<Token>)
    requires cols != [] && forall c | c in cols :: c in m
    requires rest == [] || rest[0] != Sym(',')
    ensures ParseValues(JoinTokens(LiteralTokens(cols, m), Sym(',')) + rest) == Some((ValuesOf(cols, m), rest))
  {
    hide ParseValues;
    assert cols[0] in cols;
    var first := ValueToken(m[cols[0]]);
    var parts := LiteralTokens(cols, m);
    var ts := JoinTokens(parts, Sym(',')) + rest;
    if |cols| == 1 {
      ParseOneValue(first, rest);
      assert parts[0] == [first];
      assert ts == [first] + rest;
      assert cols[1..] == [] && ValuesOf(cols, m) == [ValueOf(first)];
    } else {
      ParseValuesOf(cols[1..], m, rest);
      assert parts[1..] == LiteralTokens(cols[1..], m);
      var more := JoinTokens(parts[1..], Sym(',')) + rest;
      ParseMoreValues(first, more);
      assert ts == [first] + [Sym(',')] + more;
    }
  }

  // ----- whole statements -----

  lemma LexDeleteFrom()
    ensures Leads("DELETE FROM ", [Word("DELETE"), Word("FROM")])
  {
    LexVerb2("DELETE", "FROM");
    assert "DELETE" + " " + "FROM" + " " == "DELETE FROM ";
  }

  lemma LexInsertInto()
    ensures Leads("INSERT INTO ", [Word("INSERT"), Word("INTO")])
  {
    LexVerb2("INSERT", "INTO");
    assert "INSERT" + " " + "INTO" + " " == "INSERT INTO ";
  }

  lemma LexUpdateVerb()
    ensures Leads("UPDATE ", [Word("UPDATE")])
  {
    LexVerb("UPDATE");
    assert "UPDATE" + " " == "UPDATE ";
  }

  /** a WHERE keys */
  lemma LexWithKeys(a: string, x: seq<Token>, shape: TableShape, pk: Fields)
    requires LexesTo(a, x) && Addresses(shape, pk) && shape.primaryKey != []
    ensures LexesTo(a + " WHERE " + KeyText(shape, pk),
                    x + [Word("WHERE")] + JoinTokens(AssignsTokens(shape.primaryKey, pk), Word("AND")))
  {
    hide LexesTo, Separates, IsIdent;
    LexKeyword("AND");
    LexKeyword("WHERE");
    assert " " + "AND" + " " == " AND " && " " + "WHERE" + " " == " WHERE ";
    LexAssigns(shape.primaryKey, pk, " AND ", Word("AND"));
    LexJoin2(a, x, " WHERE ", Word("WHERE"), KeyText(shape, pk),
             JoinTokens(AssignsTokens(shape.primaryKey, pk), Word("AND")));
  }

  lemma ParseDeleteOf(schema: string, name: string, shape: TableShape, pk: Fields)
    requires Addresses(shape, pk) && shape.primaryKey != []
    ensures ParseStatement([Word("DELETE"), Word("FROM")] + (TableTokens(schema, name) + [Word("WHERE")]
              + JoinTokens(AssignsTokens(shape.primaryKey, pk), Word("AND"))))
            == Some(Delete(schema, name, KeyExpr(shape.primaryKey, pk)))
  {
    var keyTokens := JoinTokens(AssignsTokens(shape.primaryKey, pk), Word("AND"));
    hide JoinTokens, ParseWhere;
    var body := TableTokens(schema, name) + [Word("WHERE")] + keyTokens;
    assert ([Word("DELETE"), Word("FROM")] + body)[2..] == body;
    assert body == TableTokens(schema, name) + ([Word("WHERE")] + keyTokens);
    ParseTableOf(schema, name, [Word("WHERE")] + keyTokens);
    ParseKeyWhere(shape.primaryKey, pk);
  }

  lemma ReadDelete(schema: string, name: string, shape: TableShape, ch: RowChange)
    requires IsIdent(schema) && IsIdent(name) && shape.primaryKey != []
    requires ch.op == "delete" && Valid(shape, ch)
    ensures Read(StatementText(TableText(schema, name), shape, ch)) == Some(Intent(schema, name, shape, ch))
  {
    hide LexesTo, Leads, IsIdent, Lex, ParseStatement, JoinTokens, KeyText;
    var keyTokens := JoinTokens(AssignsTokens(shape.primaryKey, ch.pk), Word("AND"));
    var table := TableText(schema, name);
    LexTable(schema, name);
    LexWithKeys(table, TableTokens(schema, name), shape, ch.pk);
    LexDeleteFrom();
    var body := table + " WHERE " + KeyText(shape, ch.pk);
    var bodyTokens := TableTokens(schema, name) + [Word("WHERE")] + keyTokens;
    LexAfter("DELETE FROM ", [Word("DELETE"), Word("FROM")], body, bodyTokens);
    LexWhole("DELETE FROM " + body, [Word("DELETE"), Word("FROM")] + bodyTokens);
    ParseDeleteOf(schema, name, shape, ch.pk);
    assert "DELETE FROM " + body == "DELETE FROM " + table + " WHERE " + KeyText(shape, ch.pk);
  }

  lemma ParseTableOf(schema: string, name: string, rest: seq<Token>)
    ensures ParseTable(TableTokens(schema, name) + rest) == Some(((schema, name), rest))
  {
    assert (TableTokens(schema, name) + rest)[3..] == rest;
  }

  lemma ParseUpdateParts(schema: string, name: string, setTokens: seq<Token>, whereTokens: seq<Token>)
    requires ParseSets(setTokens + whereTokens).Some? && ParseWhere(whereTokens).Some?
    requires ParseSets(setTokens + whereTokens).value.1 == whereTokens
    ensures ParseStatement([Word("UPDATE")] + (TableTokens(schema, name) + ([Word("SET")] + (setTokens + whereTokens))))
            == Some(Update(schema, name, ParseSets(setTokens + whereTokens).value.0, ParseWhere(whereTokens).value))
  {
    hide ParseSets, ParseWhere;
    var tail := setTokens + whereTokens;
    var body := TableTokens(schema, name) + ([Word("SET")] + tail);
    assert ([Word("UPDATE")] + body)[1..] == body;
    ParseTableOf(schema, name, [Word("SET")] + tail);
    assert ([Word("SET")] + tail)[1..] == tail;
  }

  lemma ParseUpdateOf(schema: string, name: string, shape: TableShape, cols: seq<string>, m: Fields, pk: Fields)
    requires Addresses(shape, pk) && shape.primaryKey != []
    requires cols != [] && forall c | c in cols :: c in m
    ensures ParseStatement([Word("UPDATE")] + (TableTokens(schema, name) + [Word("SET")]
              + (JoinTokens(AssignsTokens(cols, m), Sym(',')) + [Word("WHERE")]
                 + JoinTokens(AssignsTokens(shape.primaryKey, pk), Word("AND")))))
            == Some(Update(schema, name, Pairs(cols, m), KeyExpr(shape.primaryKey, pk)))
  {
    hide JoinTokens, AssignsTokens, ParseWhere, ParseSets, ParseStatement, Pairs, KeyExpr;
    var keyTokens := JoinTokens(AssignsTokens(shape.primaryKey, pk), Word("AND"));
    var setTokens := JoinTokens(AssignsTokens(cols, m), Sym(','));
    ParseSetsOf(cols, m, [Word("WHERE")] + keyTokens);
    ParseKeyWhere(shape.primaryKey, pk);
    ParseUpdateParts(schema, name, setTokens, [Word("WHERE")] + keyTokens);
    assert TableTokens(schema, name) + ([Word("SET")] + (setTokens + ([Word("WHERE")] + keyTokens)))
        == TableTokens(schema, name) + [Word("SET")] + (setTokens + [Word("WHERE")] + keyTokens);
  }

  lemma LexUpdateText(schema: string, name: string, shape: TableShape, cols: seq<string>, m: Fields, pk: Fields)
    requires IsIdent(schema) && IsIdent(name) && Addresses(shape, pk) && shape.primaryKey != []
    requires cols != [] && forall c | c in cols :: c in m && IsIdent(c)
    ensures LexesTo("UPDATE " + (TableText(schema, name) + " SET " + (Join(Assigns(cols, m), ", ") + " WHERE " + KeyText(shape, pk))),
                    [Word("UPDATE")] + (TableTokens(schema, name) + [Word("SET")]
                      + (JoinTokens(AssignsTokens(cols, m), Sym(',')) + [Word("WHERE")]
                         + JoinTokens(AssignsTokens(shape.primaryKey, pk), Word("AND")))))
  {
    hide LexesTo, Separates, Leads, IsIdent, Join, JoinTokens, Assigns, KeyText, TableText, TableTokens;
    LexComma();
    LexAssigns(cols, m, ", ", Sym(','));
    LexWithKeys(Join(Assigns(cols, m), ", "), JoinTokens(AssignsTokens(cols, m), Sym(',')), shape, pk);
    LexTable(schema, name);
    LexKeyword("SET");
    assert " " + "SET" + " " == " SET ";
    var tail := Join(Assigns(cols, m), ", ") + " WHERE " + KeyText(shape, pk);
    var tailTokens := JoinTokens(AssignsTokens(cols, m), Sym(',')) + [Word("WHERE")]
                      + JoinTokens(AssignsTokens(shape.primaryKey, pk), Word("AND"));
    LexJoin2(TableText(schema, name), TableTokens(schema, name), " SET ", Word("SET"), tail, tailTokens);
    LexUpdateVerb();
    LexAfter("UPDATE ", [Word("UPDATE")], TableText(schema, name) + " SET " + tail,
             TableTokens(schema, name) + [Word("SET")] + tailTokens);
  }

  lemma ReadUpdate(schema: string, name: string, shape: TableShape, ch: RowChange)
    requires IsIdent(schema) && IsIdent(name) && shape.primaryKey != []
    requires ch.op == "update" && Valid(shape, ch)
    ensures Read(StatementText(TableText(schema, name), shape, ch)) == Some(Intent(schema, name, shape, ch))
  {
    hide LexesTo, IsIdent, Lex, ParseStatement, Join, JoinTokens, KeyText, Assigns;
    var cols := Keys(ch.sets);
    LexUpdateText(schema, name, shape, cols, ch.sets, ch.pk);
    LexWhole("UPDATE " + (TableText(schema, name) + " SET " + (SetText(ch.sets) + " WHERE " + KeyText(shape, ch.pk))),
             [Word("UPDATE")] + (TableTokens(schema, name) + [Word("SET")]
               + (JoinTokens(AssignsTokens(cols, ch.sets), Sym(',')) + [Word("WHERE")]
                  + JoinTokens(AssignsTokens(shape.primaryKey, ch.pk), Word("AND")))));
    ParseUpdateOf(schema, name, shape, cols, ch.sets, ch.pk);
    UpdateTextShape(TableText(schema, name), SetText(ch.sets), KeyText(shape, ch.pk));
  }

  lemma UpdateTextShape(table: string, sets: string, keys: string)
    ensures "UPDATE " + (table + " SET " + (sets + " WHERE " + keys))
         == "UPDATE " + table + " SET " + sets + " WHERE " + keys
  {
  }

  lemma LexInsertTail(names: string, nameTokens: seq<Token>, literals: string, valueTokens: seq<Token>)
    requires LexesTo(names, nameTokens) && LexesTo(literals, valueTokens)
    ensures LexesTo(names + ") " + ("VALUES (" + (literals + ")")),
                    nameTokens + [Sym(')')] + ([Word("VALUES"), Sym('(')] + (valueTokens + [Sym(')')])))
  {
    LexClosed(literals, valueTokens, ')');
    LexOpenAfterWord("VALUES");
    assert "VALUES" + " (" == "VALUES (";
    LexAfter("VALUES (", [Word("VALUES"), Sym('(')], literals + ")", valueTokens + [Sym(')')]);
    LexCloseBlank();
    LexJoin2(names, nameTokens, ") ", Sym(')'), "VALUES (" + (literals + ")"),
             [Word("VALUES"), Sym('(')] + (valueTokens + [Sym(')')]));
  }

  lemma LexInsertText(schema: string, name: string, cols: seq<string>, m: Fields)
    requires IsIdent(schema) && IsIdent(name)
    requires cols != [] && forall c | c in cols :: c in m && IsIdent(c)
    ensures LexesTo("INSERT INTO " + (TableText(schema, name) + " (" + (Join(QuotedAll(cols), ", ") + ") " + ("VALUES (" + (Join(LiteralsOf(cols, m), ", ") + ")")))),
                    [Word("INSERT"), Word("INTO")] + (TableTokens(schema, name) + [Sym('(')]
                      + (JoinTokens(NameTokens(cols), Sym(',')) + [Sym(')')]
                         + ([Word("VALUES"), Sym('(')] + (JoinTokens(LiteralTokens(cols, m), Sym(',')) + [Sym(')')])))))
  {
    hide LexesTo, Leads, Separates, IsIdent, JoinTokens, Join, QuotedAll, LiteralsOf, TableText, TableTokens;
    var names, literals := Join(QuotedAll(cols), ", "), Join(LiteralsOf(cols, m), ", ");
    var nameTokens, valueTokens := JoinTokens(NameTokens(cols), Sym(',')), JoinTokens(LiteralTokens(cols, m), Sym(','));
    LexInsertLists(cols, m);
    LexInsertTail(names, nameTokens, literals, valueTokens);
    var lists := names + ") " + ("VALUES (" + (literals + ")"));
    var listTokens := nameTokens + [Sym(')')] + ([Word("VALUES"), Sym('(')] + (valueTokens + [Sym(')')]));
    LexTable(schema, name);
    LexOpenBlank();
    LexJoin2(TableText(schema, name), TableTokens(schema, name), " (", Sym('('), lists, listTokens);
    LexInsertInto();
    LexAfter("INSERT INTO ", [Word("INSERT"), Word("INTO")], TableText(schema, name) + " (" + lists,
             TableTokens(schema, name) + [Sym('(')] + listTokens);
  }

  lemma ReadInsert(schema: string, name: string, shape: TableShape, ch: RowChange)
    requires IsIdent(schema) && IsIdent(name) && shape.primaryKey != []
    requires ch.op == "insert" && Valid(shape, ch)
    ensures Read(StatementText(TableText(schema, name), shape, ch)) == Some(Intent(schema, name, shape, ch))
  {
    hide LexesTo, IsIdent, Lex, ParseInsert, JoinTokens, Join, QuotedAll, LiteralsOf, NameTokens, LiteralTokens, TableTokens, TableText;
    var cols := Keys(ch.values);
    var table := TableText(schema, name);
    var names, literals := Join(QuotedAll(cols), ", "), Join(LiteralsOf(cols, ch.values), ", ");
    var bodyTokens := TableTokens(schema, name) + [Sym('(')] + (JoinTokens(NameTokens(cols), Sym(',')) + [Sym(')')]
                        + ([Word("VALUES"), Sym('(')] + (JoinTokens(LiteralTokens(cols, ch.values), Sym(',')) + [Sym(')')])));
    LexInsertText(schema, name, cols, ch.values);
    LexWhole("INSERT INTO " + (table + " (" + (names + ") " + ("VALUES (" + (literals + ")")))),
             [Word("INSERT"), Word("INTO")] + bodyTokens);
    ParseInsertOf(schema, name, cols, ch.values);
    ParseInsertStatement(bodyTokens);
    InsertTextShape(table, names, literals);
  }

  lemma ParseInsertStatement(body: seq<Token>)
    ensures ParseStatement([Word("INSERT"), Word("INTO")] + body) == ParseInsert(body)
  {
    hide ParseInsert;
    assert ([Word("INSERT"), Word("INTO")] + body)[2..] == body;
  }

  lemma InsertTextShape(table: string, names: string, literals: string)
    ensures "INSERT INTO " + (table + " (" + (names + ") " + ("VALUES (" + (literals + ")"))))
         == "INSERT INTO " + table + " (" + names + ") VALUES (" + literals + ")"
  {
    assert ") " + "VALUES (" == ") VALUES (";
  }

  lemma LexOpenAfterWord(w: string)
    requires w != "" && forall c | c in w :: IsWordChar(c)
    ensures Leads(w + " (", [Word(w), Sym('(')])
  {
    forall rest: string ensures Lex(w + " (" + rest) == Prepend([Word(w), Sym('(')], Lex(rest)) {
      assert w + " (" + rest == w + (" " + (['('] + rest));
      LexWord(w, " " + (['('] + rest));
      LexBlank(['('] + rest);
      LexSym('(', rest);
      PrependTwice([Word(w)], [Sym('(')], Lex(rest));
      assert [Word(w)] + [Sym('(')] == [Word(w), Sym('(')];
    }
  }

  lemma LexCloseBlank()
    ensures Separates(") ", Sym(')'))
  {
    forall rest: string ensures Lex(") " + rest) == Prepend([Sym(')')], Lex(rest)) {
      assert ") " + rest == [')'] + (" " + rest);
      LexSym(')', " " + rest);
      LexBlank(rest);
    }
  }

  lemma LexOpenBlank()
    ensures Separates(" (", Sym('('))
  {
    forall rest: string ensures Lex(" (" + rest) == Prepend([Sym('(')], Lex(rest)) {
      assert " (" + rest == " " + (['('] + rest);
      LexBlank(['('] + rest);
      LexSym('(', rest);
    }
  }

  lemma ParseInsertOf(schema: string, name: string, cols: seq<string>, m: Fields)
    requires cols != [] && forall c | c in cols :: c in m
    ensures ParseInsert(TableTokens(schema, name) + [Sym('(')]
              + (JoinTokens(NameTokens(cols), Sym(',')) + [Sym(')')]
                 + ([Word("VALUES"), Sym('(')] + (JoinTokens(LiteralTokens(cols, m), Sym(',')) + [Sym(')')]))))
            == Some(Insert(schema, name, cols, ValuesOf(cols, m)))
  {
    hide JoinTokens, NameTokens, LiteralTokens, ValuesOf, ParseNames, ParseValues;
    var nameTokens := JoinTokens(NameTokens(cols), Sym(','));
    var values := JoinTokens(LiteralTokens(cols, m), Sym(',')) + [Sym(')')];
    var afterNames := [Sym(')'), Word("VALUES"), Sym('(')] + values;
    var ts := TableTokens(schema, name) + [Sym('(')] + (nameTokens + [Sym(')')] + ([Word("VALUES"), Sym('(')] + values));
    assert nameTokens + [Sym(')')] + ([Word("VALUES"), Sym('(')] + values) == nameTokens + afterNames;
    assert ts == TableTokens(schema, name) + ([Sym('(')] + (nameTokens + afterNames));
    ParseTableOf(schema, name, [Sym('(')] + (nameTokens + afterNames));
    assert ([Sym('(')] + (nameTokens + afterNames))[1..] == nameTokens + afterNames;
    ParseNamesOf(cols, afterNames);
    assert afterNames[3..] == values;
    ParseValuesOf(cols, m, [Sym(')')]);
  }

  /** Every statement BuildMutations returns is read back as the edit it was
      built from: same operation, same table, each column with its text or
      NULL, and equality on every key column. */
  lemma StatementReadsBack(schema: string, name: string, shape: TableShape, ch: RowChange)
    requires IsIdent(schema) && IsIdent(name) && shape.primaryKey != []
    requires Valid(shape, ch)
    ensures Read(StatementText(TableText(schema, name), shape, ch)) == Some(Intent(schema, name, shape, ch))
  {
    match ch.op
    case "update" => ReadUpdate(schema, name, shape, ch);
    case "delete" => ReadDelete(schema, name, shape, ch);
    case "insert" => ReadInsert(schema, name, shape, ch);
  }

  /** A whole batch reads back: statement i is change i, for every i. */
  lemma BatchReadsBack(schema: string, name: string, shape: TableShape, changes: seq<RowChange>, texts: seq<string>)
    requires Buildable(schema, name, shape, changes) && shape.primaryKey != [] && |texts| == |changes|
    requires forall i | 0 <= i < |changes| :: texts[i] == StatementText(TableText(schema, name), shape, changes[i])
    ensures forall i | 0 <= i < |changes| :: Read(texts[i]) == Some(Intent(schema, name, shape, changes[i]))
  {
    hide StatementText, TableText, Valid, Read, Intent, IsIdent;
    forall i | 0 <= i < |changes| ensures Read(texts[i]) == Some(Intent(schema, name, shape, changes[i])) {
      StatementReadsBack(schema, name, shape, changes[i]);
    }
  }
}
