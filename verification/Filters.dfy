/** Column filters compiled to a WHERE clause (buildWhere in
    internal/pg/tabledata.go), and what the clause means. */
module Filters {
  import opened Base
  import opened Text
  import opened SqlText
  import opened SqlReader
  import opened SqlLexing
  import opened SqlEval

  datatype TableFilter = TableFilter(column: string, values: seq<Cell>)

  type Built<T> = Result<T, BuildError>

  predicate Active(f: TableFilter, exclude: string) {
    f.column != "" && f.column != exclude && f.values != []
  }

  /** The quoted texts of the non-null values, in order. */
  function Literals(values: seq<Cell>): seq<string> {
    if values == [] then []
    else (if values[0].Null? then [] else [SqlLiteral(CellText(values[0]))]) + Literals(values[1..])
  }

  function Texts(values: seq<Cell>): seq<string> {
    if values == [] then []
    else (if values[0].Null? then [] else [CellText(values[0])]) + Texts(values[1..])
  }

  function Parts(f: TableFilter): seq<string> {
    var lits := Literals(f.values);
    (if lits == [] then [] else [Quoted(f.column) + "::text IN (" + Join(lits, ", ") + ")"])
    + (if Null in f.values then [Quoted(f.column) + " IS NULL"] else [])
  }

  function Clause(f: TableFilter): string {
    "(" + Join(Parts(f), " OR ") + ")"
  }

  function ActiveOnes(filters: seq<TableFilter>, exclude: string): seq<TableFilter> {
    if filters == [] then []
    else (if Active(filters[0], exclude) then [filters[0]] else []) + ActiveOnes(filters[1..], exclude)
  }

  function Clauses(fs: seq<TableFilter>): (r: seq<string>)
    ensures |r| == |fs|
    ensures forall i | 0 <= i < |fs| :: r[i] == Clause(fs[i])
  {
    if fs == [] then [] else [Clause(fs[0])] + Clauses(fs[1..])
  }

  function WhereText(filters: seq<TableFilter>, exclude: string): string {
    var fs := ActiveOnes(filters, exclude);
    if fs == [] then "" else " WHERE " + Join(Clauses(fs), " AND ")
  }

  predicate Compilable(filters: seq<TableFilter>, exclude: string) {
    forall f | f in filters && Active(f, exclude) :: IsIdent(f.column)
  }

  lemma {:induction false} LiteralsSnoc(vs: seq<Cell>, v: Cell)
    ensures Literals(vs + [v]) == Literals(vs) + (if v.Null? then [] else [SqlLiteral(CellText(v))])
  {
    if vs == [] {
      assert vs + [v] == [v];
    } else {
      assert (vs + [v])[1..] == vs[1..] + [v];
      LiteralsSnoc(vs[1..], v);
    }
  }

  lemma {:induction false} ActiveOnesSnoc(fs: seq<TableFilter>, f: TableFilter, exclude: string)
    ensures ActiveOnes(fs + [f], exclude) == ActiveOnes(fs, exclude) + (if Active(f, exclude) then [f] else [])
  {
    if fs == [] {
      assert fs + [f] == [f];
    } else {
      assert (fs + [f])[1..] == fs[1..] + [f];
      ActiveOnesSnoc(fs[1..], f, exclude);
    }
  }

  lemma {:induction false} ClausesSnoc(fs: seq<TableFilter>, f: TableFilter)
    ensures Clauses(fs + [f]) == Clauses(fs) + [Clause(f)]
  {
    assert forall i | 0 <= i < |fs| :: (fs + [f])[i] == fs[i];
  }

  lemma {:induction false} ActiveOnesIn(filters: seq<TableFilter>, exclude: string)
    ensures forall f :: f in ActiveOnes(filters, exclude) <==> f in filters && Active(f, exclude)
  {
    if filters != [] {
      ActiveOnesIn(filters[1..], exclude);
      assert filters == [filters[0]] + filters[1..];
    }
  }

  /** The inner loop of buildWhere: one pass over a filter's values. */
  method SplitValues(values: seq<Cell>) returns (lits: seq<string>, hasNull: bool)
    ensures lits == Literals(values)
    ensures hasNull <==> Null in values
  {
    lits, hasNull := [], false;
    var i := 0;
    while i < |values|
      invariant 0 <= i <= |values|
      invariant lits == Literals(values[..i])
      invariant hasNull <==> Null in values[..i]
    {
      var v := values[i];
      assert values[..i + 1] == values[..i] + [v];
      LiteralsSnoc(values[..i], v);
      if v == Null {
        hasNull := true;
      } else {
        lits := lits + [SqlLiteral(CellText(v))];
      }
      i := i + 1;
    }
    assert values[..i] == values;
  }

  method BuildWhere(filters: seq<TableFilter>, exclude: string) returns (r: Built<string>)
    ensures r.Ok? <==> Compilable(filters, exclude)
    ensures r.Ok? ==> r.value == WhereText(filters, exclude)
    ensures r.Err? ==> exists f :: f in filters && Active(f, exclude) && !IsIdent(f.column) && r.error == InvalidIdentifier(f.column)
  {
    hide IsIdent, Literals, Join, Quoted;
    var clauses: seq<string> := [];
    var i := 0;
    while i < |filters|
      invariant 0 <= i <= |filters|
      invariant Compilable(filters[..i], exclude)
      invariant clauses == Clauses(ActiveOnes(filters[..i], exclude))
    {
      var f := filters[i];
      assert filters[..i + 1] == filters[..i] + [f];
      ActiveOnesSnoc(filters[..i], f, exclude);
      if f.column != "" && f.column != exclude && |f.values| != 0 {
        var q := QuoteIdent(f.column);
        if q.Err? {
          assert f in filters && Active(f, exclude);
          return Err(q.error);
        }
        var lits, hasNull := SplitValues(f.values);
        var parts: seq<string> := [];
        if |lits| > 0 { parts := parts + [q.value + "::text IN (" + Join(lits, ", ") + ")"]; }
        if hasNull { parts := parts + [q.value + " IS NULL"]; }
        assert parts == Parts(f);
        PartsNonEmpty(f);
        if |parts| > 0 { clauses := clauses + ["(" + Join(parts, " OR ") + ")"]; }
        ClausesSnoc(ActiveOnes(filters[..i], exclude), f);
      }
      i := i + 1;
    }
    assert filters[..i] == filters;
    if |clauses| == 0 { return Ok(""); }
    r := Ok(" WHERE " + Join(clauses, " AND "));
  }

  /** A filter with values always yields a condition. */
  lemma {:induction false} PartsNonEmpty(f: TableFilter)
    requires f.values != []
    ensures Parts(f) != []
    ensures Null !in f.values ==> Literals(f.values) != []
  {
    var v := f.values[0];
    if v.Null? { assert Null in f.values; }
  }

  // ----- reading the clause back -----

  function InTokens(c: string, values: seq<Cell>): seq<Token> {
    [Ident(c), Sym(':'), Sym(':'), Word("text"), Word("IN"), Sym('(')]
    + (JoinTokens(LitTokens(Texts(values)), Sym(',')) + [Sym(')')])
  }

  function LitTokens(texts: seq<string>): (r: seq<seq<Token>>)
    ensures |r| == |texts|
    ensures forall i | 0 <= i < |texts| :: r[i] == [Lit(texts[i])]
  {
    if texts == [] then [] else [[Lit(texts[0])]] + LitTokens(texts[1..])
  }

  function NullTokens(c: string): seq<Token> {
    [Ident(c), Word("IS"), Word("NULL")]
  }

  function PartTokens(f: TableFilter): seq<seq<Token>> {
    (if Texts(f.values) == [] then [] else [InTokens(f.column, f.values)])
    + (if Null in f.values then [NullTokens(f.column)] else [])
  }

  function ClauseTokens(f: TableFilter): seq<Token> {
    [Sym('(')] + (JoinTokens(PartTokens(f), Word("OR")) + [Sym(')')])
  }

  function ClausesTokens(fs: seq<TableFilter>): (r: seq<seq<Token>>)
    ensures |r| == |fs|
    ensures forall i | 0 <= i < |fs| :: r[i] == ClauseTokens(fs[i])
  {
    if fs == [] then [] else [ClauseTokens(fs[0])] + ClausesTokens(fs[1..])
  }

  lemma {:induction false} LiteralsAreTexts(values: seq<Cell>)
    ensures |Literals(values)| == |Texts(values)|
    ensures forall i | 0 <= i < |Texts(values)| :: Literals(values)[i] == SqlLiteral(Texts(values)[i])
  {
    if values != [] { LiteralsAreTexts(values[1..]); }
  }

  lemma LexIn(c: string, values: seq<Cell>)
    requires IsIdent(c) && Texts(values) != []
    ensures LexesTo(Quoted(c) + "::text IN (" + Join(Literals(values), ", ") + ")", InTokens(c, values))
  {
    hide Join, JoinTokens, Quoted, IsIdent, Texts, Literals, Lex;
    LiteralsAreTexts(values);
    var lits, toks := Literals(values), LitTokens(Texts(values));
    forall i | 0 <= i < |lits| ensures LexesTo(lits[i], toks[i]) { LexLiteral(Texts(values)[i]); }
    LexComma();
    LexJoin(lits, toks, ", ", Sym(','));
    LexClosed(Join(lits, ", "), JoinTokens(toks, Sym(',')), ')');
    LexIdent(c);
    LexCastIn();
    LexMiddle(Quoted(c), [Ident(c)], "::text IN (", [Sym(':'), Sym(':'), Word("text"), Word("IN"), Sym('(')],
              Join(lits, ", ") + ")", JoinTokens(toks, Sym(',')) + [Sym(')')]);
    assert Quoted(c) + "::text IN (" + (Join(lits, ", ") + ")") == Quoted(c) + "::text IN (" + Join(lits, ", ") + ")";
    assert [Ident(c)] + [Sym(':'), Sym(':'), Word("text"), Word("IN"), Sym('(')]
        == [Ident(c), Sym(':'), Sym(':'), Word("text"), Word("IN"), Sym('(')];
  }

  /** `::text IN (` reads as its six symbols and words wherever it stands. */
  lemma LexCastIn()
    ensures Stops("::text IN (")
    ensures Leads("::text IN (", [Sym(':'), Sym(':'), Word("text"), Word("IN"), Sym('(')])
  {
    hide LexesTo, Separates;
    forall rest: string
      ensures Lex("::text IN (" + rest) == Prepend([Sym(':'), Sym(':'), Word("text"), Word("IN"), Sym('(')], Lex(rest))
    {
      LexCastRest(rest);
    }
  }

  lemma LexCastRest(rest: string)
    ensures Lex("::text IN (" + rest) == Prepend([Sym(':'), Sym(':'), Word("text"), Word("IN"), Sym('(')], Lex(rest))
  {
    hide Lex, Prepend, WordLength;
    var s5 := ['('] + rest;
    var s4 := "IN" + (" " + s5);
    var s3 := "text" + (" " + s4);
    var s2 := [':'] + s3;
    assert "::text IN (" + rest == [':'] + s2;
    LexSym(':', s2);
    LexSym(':', s3);
    LexWord("text", " " + s4);
    LexBlank(s4);
    LexWord("IN", " " + s5);
    LexBlank(s5);
    LexSym('(', rest);
    var r := Lex(rest);
    PrependTwice([Word("IN")], [Sym('(')], r);
    PrependTwice([Word("text")], [Word("IN")] + [Sym('(')], r);
    PrependTwice([Sym(':')], [Word("text")] + ([Word("IN")] + [Sym('(')]), r);
    PrependTwice([Sym(':')], [Sym(':')] + ([Word("text")] + ([Word("IN")] + [Sym('(')])), r);
    assert [Sym(':')] + ([Sym(':')] + ([Word("text")] + ([Word("IN")] + [Sym('(')])))
        == [Sym(':'), Sym(':'), Word("text"), Word("IN"), Sym('(')];
  }

  lemma LexMiddle(a: string, x: seq<Token>, m: string, y: seq<Token>, b: string, z: seq<Token>)
    requires LexesTo(a, x) && Leads(m, y) && m != "" && Stops(m) && LexesTo(b, z)
    ensures LexesTo(a + m + b, x + y + z)
  {
    hide Lex, Prepend;
    forall rest | Stops(rest) ensures Lex(a + m + b + rest) == Prepend(x + y + z, Lex(rest)) {
      var t := m + (b + rest);
      assert a + m + b + rest == a + t;
      assert Stops(t);
      assert Lex(a + t) == Prepend(x, Lex(t));
      assert Lex(t) == Prepend(y, Lex(b + rest));
      assert Lex(b + rest) == Prepend(z, Lex(rest));
      PrependTwice(y, z, Lex(rest));
      PrependTwice(x, y + z, Lex(rest));
      assert x + (y + z) == x + y + z;
    }
  }

  lemma LexIsNull(c: string)
    requires IsIdent(c)
    ensures LexesTo(Quoted(c) + " IS NULL", NullTokens(c))
  {
    hide Lex, IsIdent, LexesTo, Separates;
    LexIdent(c);
    LexKeyword("IS");
    LexNull();
    assert " " + "IS" + " " == " IS ";
    LexJoin2(Quoted(c), [Ident(c)], " IS ", Word("IS"), "NULL", [Word("NULL")]);
    assert Quoted(c) + " IS " + "NULL" == Quoted(c) + " IS NULL";
    assert [Ident(c)] + [Word("IS")] + [Word("NULL")] == NullTokens(c);
  }

  lemma LexClause(f: TableFilter)
    requires IsIdent(f.column) && f.values != []
    ensures LexesTo(Clause(f), ClauseTokens(f))
  {
    hide Lex, IsIdent, LexesTo, Separates, Leads, Join, JoinTokens, InTokens, NullTokens, Texts, Literals, Quoted;
    LiteralsAreTexts(f.values);
    PartsNonEmpty(f);
    var parts, toks := Parts(f), PartTokens(f);
    forall i | 0 <= i < |parts| ensures LexesTo(parts[i], toks[i]) {
      if i == 0 && Texts(f.values) != [] { LexIn(f.column, f.values); } else { LexIsNull(f.column); }
    }
    LexKeyword("OR");
    assert " " + "OR" + " " == " OR ";
    LexJoin(parts, toks, " OR ", Word("OR"));
    LexClosed(Join(parts, " OR "), JoinTokens(toks, Word("OR")), ')');
    LexBareSym('(');
    SeparatorLeads("(", Sym('('));
    LexAfter("(", [Sym('(')], Join(parts, " OR ") + ")", JoinTokens(toks, Word("OR")) + [Sym(')')]);
    assert "(" + (Join(parts, " OR ") + ")") == Clause(f);
  }

  lemma SeparatorLeads(s: string, t: Token)
    requires Separates(s, t)
    ensures Leads(s, [t])
  {
    hide Lex;
  }

  // ----- parsing it -----

  function FilterExpr(f: TableFilter): Expr
    requires f.values != []
  {
    var inList := InList(f.column, Texts(f.values));
    if Texts(f.values) == [] then IsNull(f.column)
    else if Null in f.values then Or(inList, IsNull(f.column))
    else inList
  }

  function AllOf(fs: seq<TableFilter>): Expr
    requires fs != [] && forall f | f in fs :: f.values != []
  {
    assert fs[0] in fs;
    if |fs| == 1 then FilterExpr(fs[0]) else And(FilterExpr(fs[0]), AllOf(fs[1..]))
  }

  lemma {:induction false} ParseLitsOf(texts: seq<string>, rest: seq<Token>)
    requires texts != [] && rest != [] && rest[0] != Sym(',')
    ensures ParseLits(JoinTokens(LitTokens(texts), Sym(',')) + rest) == Some((texts, rest))
  {
    var parts := LitTokens(texts);
    var ts := JoinTokens(parts, Sym(',')) + rest;
    assert parts[0] == [Lit(texts[0])];
    if |texts| == 1 {
      assert ts == [Lit(texts[0])] + rest;
      assert ts[1] == rest[0] && ts[1..] == rest;
      assert texts == [texts[0]];
    } else {
      ParseLitsOf(texts[1..], rest);
      assert parts[1..] == LitTokens(texts[1..]);
      var more := JoinTokens(parts[1..], Sym(',')) + rest;
      assert ts == [Lit(texts[0])] + [Sym(',')] + more;
      assert ts[2..] == more;
      assert texts == [texts[0]] + texts[1..];
    }
  }

  lemma ParseInAtom(c: string, values: seq<Cell>, rest: seq<Token>)
    requires Texts(values) != []
    ensures ParseAtom(InTokens(c, values) + rest) == Some((InList(c, Texts(values)), rest))
  {
    hide JoinTokens, LitTokens, Texts, ParseLits;
    var lits := JoinTokens(LitTokens(Texts(values)), Sym(','));
    var ts := InTokens(c, values) + rest;
    var tail := [Sym(')')] + rest;
    assert ts == [Ident(c), Sym(':'), Sym(':'), Word("text"), Word("IN"), Sym('(')] + (lits + tail);
    assert ts[6..] == lits + tail;
    ParseLitsOf(Texts(values), tail);
    assert tail[1..] == rest;
  }

  lemma ParseNullAtom(c: string, rest: seq<Token>)
    ensures ParseAtom(NullTokens(c) + rest) == Some((IsNull(c), rest))
  {
    assert (NullTokens(c) + rest)[3..] == rest;
  }

  /** An atom followed by a closing parenthesis is the whole inner condition. */
  lemma ParseLast(ts: seq<Token>, e: Expr, rest: seq<Token>)
    requires ParseAtom(ts) == Some((e, rest)) && rest != [] && rest[0] == Sym(')')
    ensures ParseOr(ts) == Some((e, rest))
  {
  }

  lemma ParseInner(f: TableFilter, rest: seq<Token>)
    requires f.values != []
    ensures ParseOr(JoinTokens(PartTokens(f), Word("OR")) + ([Sym(')')] + rest))
            == Some((FilterExpr(f), [Sym(')')] + rest))
  {
    hide InTokens, NullTokens, Texts, Literals, ParseAtom;
    LiteralsAreTexts(f.values);
    PartsNonEmpty(f);
    var tail := [Sym(')')] + rest;
    var isNull := NullTokens(f.column) + tail;
    ParseNullAtom(f.column, tail);
    ParseLast(isNull, IsNull(f.column), tail);
    if Texts(f.values) == [] {
      assert JoinTokens(PartTokens(f), Word("OR")) == NullTokens(f.column);
    } else if Null !in f.values {
      ParseInAtom(f.column, f.values, tail);
      ParseLast(InTokens(f.column, f.values) + tail, InList(f.column, Texts(f.values)), tail);
      assert JoinTokens(PartTokens(f), Word("OR")) == InTokens(f.column, f.values);
    } else {
      var inT := InTokens(f.column, f.values);
      assert PartTokens(f) == [inT, NullTokens(f.column)];
      assert PartTokens(f)[1..] == [NullTokens(f.column)];
      assert JoinTokens(PartTokens(f), Word("OR")) == inT + [Word("OR")] + NullTokens(f.column);
      ParseInAtom(f.column, f.values, [Word("OR")] + isNull);
      assert inT + [Word("OR")] + NullTokens(f.column) + tail == inT + ([Word("OR")] + isNull);
      assert ([Word("OR")] + isNull)[1..] == isNull;
    }
  }

  lemma ParseClause(f: TableFilter, rest: seq<Token>)
    requires f.values != []
    ensures ParseAtom(ClauseTokens(f) + rest) == Some((FilterExpr(f), rest))
  {
    hide ParseOr, JoinTokens, PartTokens, FilterExpr;
    var inner := JoinTokens(PartTokens(f), Word("OR"));
    var ts := ClauseTokens(f) + rest;
    assert ts == [Sym('(')] + (inner + ([Sym(')')] + rest));
    assert ts[1..] == inner + ([Sym(')')] + rest);
    ParseInner(f, rest);
    assert ([Sym(')')] + rest)[1..] == rest;
  }

  lemma {:induction false} ParseClauses(fs: seq<TableFilter>)
    requires fs != [] && forall f | f in fs :: f.values != []
    ensures ParseAnd(JoinTokens(ClausesTokens(fs), Word("AND"))) == Some((AllOf(fs), []))
  {
    hide ParseAtom, ClauseTokens, FilterExpr;
    assert fs[0] in fs;
    var parts := ClausesTokens(fs);
    if |fs| == 1 {
      ParseClause(fs[0], []);
      assert ClauseTokens(fs[0]) + [] == parts[0];
    } else {
      ParseClauses(fs[1..]);
      var rest := JoinTokens(parts[1..], Word("AND"));
      assert parts[1..] == ClausesTokens(fs[1..]);
      ParseClause(fs[0], [Word("AND")] + rest);
      assert JoinTokens(parts, Word("AND")) == ClauseTokens(fs[0]) + ([Word("AND")] + rest);
      assert ([Word("AND")] + rest)[1..] == rest;
    }
  }

  function WhereExpr(filters: seq<TableFilter>, exclude: string): Option<Expr> {
    var fs := ActiveOnes(filters, exclude);
    ActiveOnesIn(filters, exclude);
    if fs == [] then None else Some(AllOf(fs))
  }

  lemma WhereReadsBack(filters: seq<TableFilter>, exclude: string)
    requires Compilable(filters, exclude)
    ensures ReadTail(WhereText(filters, exclude)) == Some(WhereExpr(filters, exclude))
  {
    hide Lex, ParseOr, ParseAnd, JoinTokens, Join, Clause, ClauseTokens, IsIdent, AllOf, LexesTo, Leads, Separates;
    ActiveOnesIn(filters, exclude);
    var fs := ActiveOnes(filters, exclude);
    if fs == [] {
      EmptyLex();
    } else {
      var texts, toks := Clauses(fs), ClausesTokens(fs);
      forall i | 0 <= i < |fs| ensures LexesTo(texts[i], toks[i]) {
        assert fs[i] in fs;
        LexClause(fs[i]);
      }
      LexKeyword("AND");
      LexKeyword("WHERE");
      assert " " + "AND" + " " == " AND " && " " + "WHERE" + " " == " WHERE ";
      LexJoin(texts, toks, " AND ", Word("AND"));
      SeparatorLeads(" WHERE ", Word("WHERE"));
      var ts := JoinTokens(toks, Word("AND"));
      LexAfter(" WHERE ", [Word("WHERE")], Join(texts, " AND "), ts);
      LexWhole(WhereText(filters, exclude), [Word("WHERE")] + ts);
      assert ([Word("WHERE")] + ts)[1..] == ts;
      ParseClauses(fs);
      AndIsOr(ts);
    }
  }

  lemma EmptyLex()
    ensures Lex("") == Some([])
  {
  }

  lemma AndIsOr(ts: seq<Token>)
    requires ParseAnd(ts).Some? && ParseAnd(ts).value.1 == []
    ensures ParseOr(ts) == ParseAnd(ts)
  {
    hide ParseAnd;
  }

  // ----- what it means -----

  /** The filter lists this value: its text, or NULL itself. */
  predicate Lists(f: TableFilter, v: Value) {
    exists x | x in f.values :: Meaning(x) == v
  }

  lemma {:induction false} TextsIn(values: seq<Cell>, t: string)
    ensures t in Texts(values) <==> exists x | x in values :: !x.Null? && CellText(x) == t
  {
    if values != [] {
      TextsIn(values[1..], t);
      assert values == [values[0]] + values[1..];
    }
  }

  lemma FilterMeans(f: TableFilter, row: Row)
    requires f.values != []
    ensures Eval(FilterExpr(f), row) == True <==> Lists(f, ValueAt(row, f.column))
  {
    var v := ValueAt(row, f.column);
    AmongTrue(v, Texts(f.values));
    if v.Some? {
      TextsIn(f.values, v.value);
    } else if Texts(f.values) == [] {
      assert f.values[0].Null?;
      assert f.values[0] in f.values;
    }
    assert Null in f.values ==> Meaning(Null) == None;
  }

  lemma {:induction false} AllOfMeans(fs: seq<TableFilter>, row: Row)
    requires fs != [] && forall f | f in fs :: f.values != []
    ensures Eval(AllOf(fs), row) == True <==> forall f | f in fs :: Lists(f, ValueAt(row, f.column))
  {
    hide Lists, FilterExpr;
    assert fs == [fs[0]] + fs[1..];
    assert fs[0] in fs;
    FilterMeans(fs[0], row);
    if |fs| > 1 { AllOfMeans(fs[1..], row); }
  }

  /** The row passes every filter that applies. */
  predicate Passes(filters: seq<TableFilter>, exclude: string, row: Row) {
    forall f | f in filters && Active(f, exclude) :: Lists(f, ValueAt(row, f.column))
  }

  /** A filter without a column or without values, or on the excluded column, is
      as good as absent; any other keeps just the rows that hold one of its values. */
  lemma OneMoreFilter(filters: seq<TableFilter>, f: TableFilter, exclude: string, row: Row)
    ensures f.column == "" || f.column == exclude || f.values == [] ==>
              (Passes(filters + [f], exclude, row) <==> Passes(filters, exclude, row))
              && (Compilable(filters + [f], exclude) <==> Compilable(filters, exclude))
    ensures f.column != "" && f.column != exclude && f.values != [] ==>
              (Passes(filters + [f], exclude, row) <==> Passes(filters, exclude, row) && Lists(f, ValueAt(row, f.column)))
              && (Compilable(filters + [f], exclude) <==> Compilable(filters, exclude) && IsIdent(f.column))
  {
    hide Lists, IsIdent;
    assert forall x :: x in filters + [f] <==> x in filters || x == f;
  }

  /** The compiled clause, read back and evaluated under three-valued logic,
      keeps exactly the rows every active, non-excluded filter lists. */
  lemma WhereMeans(filters: seq<TableFilter>, exclude: string, row: Row)
    requires Compilable(filters, exclude)
    ensures ReadTail(WhereText(filters, exclude)).Some?
    ensures Keeps(ReadTail(WhereText(filters, exclude)).value, row) <==> Passes(filters, exclude, row)
  {
    hide WhereText, AllOf, Lists, Eval, ReadTail;
    WhereReadsBack(filters, exclude);
    ActiveOnesIn(filters, exclude);
    var fs := ActiveOnes(filters, exclude);
    if fs != [] { AllOfMeans(fs, row); }
  }
}
