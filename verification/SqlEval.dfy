/** What a condition means on a row: SQL's three-valued logic. */
module SqlEval {
  import opened Base
  import opened SqlReader

  datatype Truth = True | False | Unknown

  /** A stored row, each column by the text of its value (col::text) or NULL. */
  type Row = map<string, Value>

  function ValueAt(row: Row, column: string): Value {
    if column in row then row[column] else None
  }

  function Both(a: Truth, b: Truth): Truth {
    if a == False || b == False then False
    else if a == Unknown || b == Unknown then Unknown
    else True
  }

  function Either(a: Truth, b: Truth): Truth {
    if a == True || b == True then True
    else if a == Unknown || b == Unknown then Unknown
    else False
  }

  /** Comparing NULL with anything is neither true nor false. */
  function Compare(v: Value, text: string): Truth {
    match v
    case None => Unknown
    case Some(t) => if t == text then True else False
  }

  /** v IN (texts) is v = texts[0] OR v = texts[1] OR ... */
  function Among(v: Value, texts: seq<string>): Truth {
    if texts == [] then False else Either(Compare(v, texts[0]), Among(v, texts[1..]))
  }

  function Eval(e: Expr, row: Row): Truth {
    match e
    case Equals(c, t) => Compare(ValueAt(row, c), t)
    case InList(c, ts) => Among(ValueAt(row, c), ts)
    case IsNull(c) => if ValueAt(row, c) == None then True else False
    case And(l, r) => Both(Eval(l, row), Eval(r, row))
    case Or(l, r) => Either(Eval(l, row), Eval(r, row))
  }

  /** WHERE keeps a row only when its condition is true. */
  predicate Keeps(where: Option<Expr>, row: Row) {
    where.None? || Eval(where.value, row) == True
  }

  lemma {:induction false} AmongTrue(v: Value, texts: seq<string>)
    ensures Among(v, texts) == True <==> v.Some? && v.value in texts
  {
    if texts != [] {
      AmongTrue(v, texts[1..]);
      assert texts == [texts[0]] + texts[1..];
    }
  }
}
