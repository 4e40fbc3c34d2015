/** An independent reader for the fragment of SQL that DBil builds: tokens as in
    section 4.1 of the PostgreSQL documentation (double-quoted identifiers,
    quote-doubled literals under standard_conforming_strings), then UPDATE,
    DELETE, INSERT and WHERE conditions over =, IN, IS NULL, AND, OR and
    parentheses. Nothing in it refers to the builders. */
module SqlReader {
  import opened Base

  datatype Token = Word(word: string) | Ident(name: string) | Lit(text: string) | Sym(symbol: char)

  predicate IsBlank(c: char) {
    c == ' ' || c == '\n' || c == '\t' || c == '\r'
  }

  predicate IsWordChar(c: char) {
    'a' <= c <= 'z' || 'A' <= c <= 'Z' || c == '_' || '0' <= c <= '9'
  }

  predicate IsSymbol(c: char) {
    c == '.' || c == ',' || c == '(' || c == ')' || c == '=' || c == ':'
  }

  /** The body of a quoted token whose opening quote has been read: a doubled
      quote stands for itself, a single one ends the token. */
  function ReadQuoted(quote: char, s: string): (r: Option<(string, string)>)
    ensures r.Some? ==> |r.value.1| < |s|
    decreases |s|
  {
    if s == "" then None
    else if s[0] == quote then
      if |s| > 1 && s[1] == quote then
        match ReadQuoted(quote, s[2..])
        case None => None
        case Some(p) => Some(([quote] + p.0, p.1))
      else Some(("", s[1..]))
    else
      match ReadQuoted(quote, s[1..])
      case None => None
      case Some(p) => Some(([s[0]] + p.0, p.1))
  }

  function WordLength(s: string): (n: nat)
    ensures n <= |s|
    ensures s != "" && IsWordChar(s[0]) ==> n > 0
  {
    if s == "" || !IsWordChar(s[0]) then 0 else 1 + WordLength(s[1..])
  }

  function Prepend(ts: seq<Token>, r: Option<seq<Token>>): Option<seq<Token>> {
    match r
    case None => None
    case Some(rest) => Some(ts + rest)
  }

  function Lex(s: string): Option<seq<Token>>
    decreases |s|
  {
    if s == "" then Some([])
    else if IsBlank(s[0]) then Lex(s[1..])
    else if s[0] == '"' then
      match ReadQuoted('"', s[1..])
      case None => None
      case Some(p) => Prepend([Ident(p.0)], Lex(p.1))
    else if s[0] == '\'' then
      match ReadQuoted('\'', s[1..])
      case None => None
      case Some(p) => Prepend([Lit(p.0)], Lex(p.1))
    else if IsWordChar(s[0]) then
      var n := WordLength(s);
      Prepend([Word(s[..n])], Lex(s[n..]))
    else if IsSymbol(s[0]) then Prepend([Sym(s[0])], Lex(s[1..]))
    else None
  }

  /** A WHERE condition. */
  datatype Expr =
    | Equals(column: string, text: string)
    | InList(column: string, texts: seq<string>)
    | IsNull(column: string)
    | And(left: Expr, right: Expr)
    | Or(left: Expr, right: Expr)

  /** A value to store: text for the column's type to read, or NULL. */
  type Value = Option<string>

  datatype Statement =
    | Update(schema: string, table: string, sets: seq<(string, Value)>, where: Expr)
    | Delete(schema: string, table: string, where: Expr)
    | Insert(schema: string, table: string, columns: seq<string>, values: seq<Value>)

  /** What a parser found, and the tokens after it. */
  type Parsed<T> = Option<(T, seq<Token>)>

  function ParseLits(ts: seq<Token>): (r: Parsed<seq<string>>)
    ensures r.Some? ==> |r.value.1| < |ts|
    decreases |ts|
  {
    if |ts| == 0 || !ts[0].Lit? then None
    else if |ts| > 1 && ts[1] == Sym(',') then
      match ParseLits(ts[2..])
      case None => None
      case Some(p) => Some(([ts[0].text] + p.0, p.1))
    else Some(([ts[0].text], ts[1..]))
  }

  function ParseAtom(ts: seq<Token>): (r: Parsed<Expr>)
    ensures r.Some? ==> |r.value.1| < |ts|
    decreases |ts|, 0
  {
    if |ts| > 0 && ts[0] == Sym('(') then
      match ParseOr(ts[1..])
      case None => None
      case Some(p) => if |p.1| > 0 && p.1[0] == Sym(')') then Some((p.0, p.1[1..])) else None
    else if |ts| >= 3 && ts[0].Ident? && ts[1] == Sym('=') && ts[2].Lit? then
      Some((Equals(ts[0].name, ts[2].text), ts[3..]))
    else if |ts| >= 3 && ts[0].Ident? && ts[1] == Word("IS") && ts[2] == Word("NULL") then
      Some((IsNull(ts[0].name), ts[3..]))
    else if |ts| >= 6 && ts[0].Ident? && ts[1] == Sym(':') && ts[2] == Sym(':')
         && ts[3] == Word("text") && ts[4] == Word("IN") && ts[5] == Sym('(') then
      match ParseLits(ts[6..])
      case None => None
      case Some(p) =>
        if |p.1| > 0 && p.1[0] == Sym(')') then Some((InList(ts[0].name, p.0), p.1[1..])) else None
    else None
  }

  /** AND binds tighter than OR. */
  function ParseAnd(ts: seq<Token>): (r: Parsed<Expr>)
    ensures r.Some? ==> |r.value.1| < |ts|
    decreases |ts|, 1
  {
    match ParseAtom(ts)
    case None => None
    case Some(p) =>
      if |p.1| > 0 && p.1[0] == Word("AND") then
        match ParseAnd(p.1[1..])
        case None => None
        case Some(q) => Some((And(p.0, q.0), q.1))
      else Some(p)
  }

  function ParseOr(ts: seq<Token>): (r: Parsed<Expr>)
    ensures r.Some? ==> |r.value.1| < |ts|
    decreases |ts|, 2
  {
    match ParseAnd(ts)
    case None => None
    case Some(p) =>
      if |p.1| > 0 && p.1[0] == Word("OR") then
        match ParseOr(p.1[1..])
        case None => None
        case Some(q) => Some((Or(p.0, q.0), q.1))
      else Some(p)
  }

  /** WHERE condition, to the end of the statement. */
  function ParseWhere(ts: seq<Token>): Option<Expr> {
    if |ts| > 0 && ts[0] == Word("WHERE") then
      match ParseOr(ts[1..])
      case None => None
      case Some(p) => if p.1 == [] then Some(p.0) else None
    else None
  }

  predicate IsValue(t: Token) {
    t.Lit? || t == Word("NULL")
  }

  function ValueOf(t: Token): Value
    requires IsValue(t)
  {
    if t.Lit? then Some(t.text) else None
  }

  function ParseSets(ts: seq<Token>): (r: Parsed<seq<(string, Value)>>)
    ensures r.Some? ==> |r.value.1| < |ts|
    decreases |ts|
  {
    if |ts| < 3 || !ts[0].Ident? || ts[1] != Sym('=') || !IsValue(ts[2]) then None
    else if |ts| > 3 && ts[3] == Sym(',') then
      match ParseSets(ts[4..])
      case None => None
      case Some(p) => Some(([(ts[0].name, ValueOf(ts[2]))] + p.0, p.1))
    else Some(([(ts[0].name, ValueOf(ts[2]))], ts[3..]))
  }

  function ParseNames(ts: seq<Token>): (r: Parsed<seq<string>>)
    ensures r.Some? ==> |r.value.1| < |ts|
    decreases |ts|
  {
    if |ts| == 0 || !ts[0].Ident? then None
    else if |ts| > 1 && ts[1] == Sym(',') then
      match ParseNames(ts[2..])
      case None => None
      case Some(p) => Some(([ts[0].name] + p.0, p.1))
    else Some(([ts[0].name], ts[1..]))
  }

  function ParseValues(ts: seq<Token>): (r: Parsed<seq<Value>>)
    ensures r.Some? ==> |r.value.1| < |ts|
    decreases |ts|
  {
    if |ts| == 0 || !IsValue(ts[0]) then None
    else if |ts| > 1 && ts[1] == Sym(',') then
      match ParseValues(ts[2..])
      case None => None
      case Some(p) => Some(([ValueOf(ts[0])] + p.0, p.1))
    else Some(([ValueOf(ts[0])], ts[1..]))
  }

  /** schema . table */
  function ParseTable(ts: seq<Token>): Parsed<(string, string)> {
    if |ts| >= 3 && ts[0].Ident? && ts[1] == Sym('.') && ts[2].Ident?
    then Some(((ts[0].name, ts[2].name), ts[3..]))
    else None
  }

  function ParseUpdate(ts: seq<Token>): Option<Statement> {
    match ParseTable(ts)
    case None => None
    case Some(t) =>
      if |t.1| == 0 || t.1[0] != Word("SET") then None
      else
        match ParseSets(t.1[1..])
        case None => None
        case Some(s) =>
          match ParseWhere(s.1)
          case None => None
          case Some(w) => Some(Update(t.0.0, t.0.1, s.0, w))
  }

  function ParseDelete(ts: seq<Token>): Option<Statement> {
    match ParseTable(ts)
    case None => None
    case Some(t) =>
      match ParseWhere(t.1)
      case None => None
      case Some(w) => Some(Delete(t.0.0, t.0.1, w))
  }

  function ParseInsert(ts: seq<Token>): Option<Statement> {
    match ParseTable(ts)
    case None => None
    case Some(t) =>
      if |t.1| == 0 || t.1[0] != Sym('(') then None
      else
        match ParseNames(t.1[1..])
        case None => None
        case Some(c) =>
          if |c.1| < 3 || c.1[0] != Sym(')') || c.1[1] != Word("VALUES") || c.1[2] != Sym('(') then None
          else
            match ParseValues(c.1[3..])
            case None => None
            case Some(v) =>
              if v.1 == [Sym(')')] && |c.0| == |v.0| then Some(Insert(t.0.0, t.0.1, c.0, v.0)) else None
  }

  function ParseStatement(ts: seq<Token>): Option<Statement> {
    if |ts| >= 1 && ts[0] == Word("UPDATE") then ParseUpdate(ts[1..])
    else if |ts| >= 2 && ts[0] == Word("DELETE") && ts[1] == Word("FROM") then ParseDelete(ts[2..])
    else if |ts| >= 2 && ts[0] == Word("INSERT") && ts[1] == Word("INTO") then ParseInsert(ts[2..])
    else None
  }

  /** Reads one statement from its text. */
  function Read(s: string): Option<Statement> {
    match Lex(s)
    case None => None
    case Some(ts) => ParseStatement(ts)
  }

  /** Reads the WHERE tail of a SELECT; an empty tail is no condition. */
  function ReadTail(s: string): Option<Option<Expr>> {
    match Lex(s)
    case None => None
    case Some(ts) =>
      if ts == [] then Some(None)
      else
        match ParseWhere(ts)
        case None => None
        case Some(e) => Some(Some(e))
  }
}
