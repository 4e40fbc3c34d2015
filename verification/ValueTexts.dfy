/** What the text of a value means to the database, type by type, and which names
    can be quoted: read by rules of PostgreSQL's own, not by the printer's. */
module ValueTexts {
  import opened Base
  import opened SqlText
  import opened SqlReader
  import opened SqlEval
  import opened ReadBack
  import opened Filters

  /** The spellings of section 8.6 of the PostgreSQL documentation, in lower case. */
  const TRUES: set<string> := {"true", "tru", "tr", "t", "yes", "ye", "y", "on", "1"}
  const FALSES: set<string> := {"false", "fals", "fal", "fa", "f", "no", "n", "off", "of", "0"}

  /** A boolean column reading a literal's text. */
  function BoolInput(text: string): Option<bool> {
    if text in TRUES then Some(true) else if text in FALSES then Some(false) else None
  }

  /** A stored boolean cast to text, which spells it out. */
  function BoolOutput(b: bool): string {
    if b then "true" else "false"
  }

  /** A boolean column reads the text of a boolean as that boolean, and prints it as
      that text; strings and numbers are their own texts, and null is no text. */
  lemma TextsRead(b: bool, t: string, digits: string)
    ensures BoolInput(CellText(Bool(b))) == Some(b) && BoolOutput(b) == CellText(Bool(b))
    ensures CellText(Str(t)) == t && CellText(Num(digits)) == digits
    ensures Meaning(Null) == None && Meaning(Bool(b)) == Some(BoolOutput(b)) && Meaning(Str(t)) == Some(t) && Meaning(Num(digits)) == Some(digits)
  {
  }

  /** A filter listing one boolean keeps exactly the rows that store it. */
  lemma BoolFilter(f: TableFilter, listed: bool, row: Row, stored: bool)
    requires f.values == [Bool(listed)] && ValueAt(row, f.column) == Some(BoolOutput(stored))
    ensures Eval(FilterExpr(f), row) == True <==> stored == listed
  {
    FilterMeans(f, row);
    assert Bool(listed) in f.values;
    assert Lists(f, ValueAt(row, f.column)) <==> Meaning(Bool(listed)) == Some(BoolOutput(stored));
  }

  /** A key column holding a boolean addresses exactly the rows that store it. */
  lemma BoolKey(column: string, wanted: bool, row: Row, stored: bool)
    requires ValueAt(row, column) == Some(BoolOutput(stored))
    ensures Eval(KeyExpr([column], map[column := Bool(wanted)]), row) == True <==> stored == wanted
  {
  }

  /** A boolean set in an edit is stored as a text that reads as it. */
  lemma BoolSet(column: string, b: bool)
    ensures var pairs := Pairs([column], map[column := Bool(b)]);
            |pairs| == 1 && pairs[0].0 == column && pairs[0].1.Some? && BoolInput(pairs[0].1.value) == Some(b)
  {
  }

  /** A name can be quoted exactly when it is one whole word, not starting with a
      digit. */
  lemma IdentIsWord(s: string)
    ensures IsIdent(s) <==> s != "" && WordLength(s) == |s| && !('0' <= s[0] <= '9')
  {
    WholeWord(s);
    assert s != "" ==> s[0] in s;
  }

  lemma {:induction false} WholeWord(s: string)
    ensures WordLength(s) == |s| <==> forall c | c in s :: IsWordChar(c)
  {
    if s != "" {
      WholeWord(s[1..]);
      assert s == [s[0]] + s[1..];
    }
  }
}
