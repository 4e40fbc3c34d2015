/** Quoting of identifiers and literals (internal/pg/rows.go) and the text form
    of a JSON value (filterValueText, internal/pg/tabledata.go). */
module SqlText {
  import opened Base

  datatype BuildError =
    | InvalidIdentifier(name: string)
    | UnknownColumn(column: string)
    | InvalidChange

  /** A decoded JSON value. A number is carried by the text it formats to. */
  datatype Cell = Null | Str(text: string) | Bool(b: bool) | Num(digits: string)

  function CellText(v: Cell): string
    requires !v.Null?
  {
    match v
    case Str(t) => t
    case Bool(b) => if b then "true" else "false"
    case Num(t) => t
  }

  /** What a value means to the database: its text, or SQL NULL. */
  function Meaning(v: Cell): Option<string> {
    if v.Null? then None else Some(CellText(v))
  }

  predicate IsIdentStart(c: char) {
    'a' <= c <= 'z' || 'A' <= c <= 'Z' || c == '_'
  }

  predicate IsIdentPart(c: char) {
    IsIdentStart(c) || '0' <= c <= '9'
  }

  /** identRe: ^[a-zA-Z_][a-zA-Z_0-9]*$ */
  predicate IsIdent(s: string) {
    s != "" && IsIdentStart(s[0]) && forall c | c in s :: IsIdentPart(c)
  }

  function Quoted(s: string): string {
    "\"" + s + "\""
  }

  function QuoteIdent(s: string): Result<string, BuildError> {
    if IsIdent(s) then Ok(Quoted(s)) else Err(InvalidIdentifier(s))
  }

  /** strings.ReplaceAll(s, "'", "''") */
  function Escaped(s: string): string {
    if s == "" then ""
    else (if s[0] == '\'' then "''" else [s[0]]) + Escaped(s[1..])
  }

  function SqlLiteral(s: string): string {
    "'" + Escaped(s) + "'"
  }

  function ValueLiteral(v: Cell): string {
    if v.Null? then "NULL" else SqlLiteral(CellText(v))
  }
}
