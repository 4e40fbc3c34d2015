/** What the classifier says of plain statement texts: the class of every keyword,
    what comments and blanks in front of a statement do, and which statements
    without a WHERE it flags. */
module SqlKeywords {
  import opened Base
  import opened Text
  import opened SqlCheck
  import opened WhereSurvival

  predicate IsNameChar(c: char) {
    'a' <= c <= 'z' || 'A' <= c <= 'Z' || c == '_'
  }

  // ----- the first word decides -----

  lemma HeadOf(w: string, rest: string)
    requires w != "" && (forall c | c in w :: IsNameChar(c)) && (rest == "" || !IsWordByte(rest[0]))
    ensures HeadWord(StripComments(w + rest)) == UpperAscii(w)
  {
    CleanPrefix(w, rest);
    CleanPrefix(w, StripBlocks(rest));
    var y := StripComments(rest);
    assert y != "" ==> rest != "" && (y[0] == rest[0] || y[0] == ' ');
    hide StripBlocks, StripLines, UpperAscii;
    assert w[0] in w;
    WordThen(w, y);
  }

  lemma WordThen(w: string, y: string)
    requires w != "" && (forall c | c in w :: IsNameChar(c)) && (y == "" || !IsWordByte(y[0]))
    ensures HeadWord(w + y) == UpperAscii(w)
  {
    hide UpperAscii, WordEnd;
    assert w[0] in w && (w + y)[0] == w[0];
    var n := WordEnd(w + y);
    forall i | 0 <= i < |w| ensures IsWordByte((w + y)[i]) { assert w[i] in w; }
    if y != "" { assert (w + y)[|w|] == y[0]; }
    assert n == |w|;
    assert (w + y)[..n] == w;
  }

  /** The word is the keyword, each letter in either case. */
  predicate Spells(w: string, keyword: string) {
    |w| == |keyword| && forall i | 0 <= i < |w| ::
      'A' <= keyword[i] <= 'Z' && (w[i] == keyword[i] || w[i] as int == keyword[i] as int + 32)
  }

  /** A statement that opens with a whole word, in letters of either case, is of the
      class of that keyword. */
  lemma KeywordClass(w: string, keyword: string, rest: string)
    requires w != "" && Spells(w, keyword) && (rest == "" || !IsWordByte(rest[0]))
    ensures Classify(w + rest) == KeywordMeans(keyword)
  {
    InCapitals(w, keyword);
    WordClass(w, rest);
  }

  /** A longer word is not the keyword it starts with: the whole word counts,
      underscores included. */
  lemma WordClass(w: string, rest: string)
    requires w != "" && (forall c | c in w :: IsNameChar(c)) && (rest == "" || !IsWordByte(rest[0]))
    ensures Classify(w + rest) == KeywordMeans(UpperAscii(w))
  {
    HeadOf(w, rest);
    hide HeadWord, StripComments, UpperAscii;
    TableAgrees(UpperAscii(w));
  }

  lemma InCapitals(w: string, keyword: string)
    requires Spells(w, keyword)
    ensures UpperAscii(w) == keyword && forall c | c in w :: IsNameChar(c)
  {
    hide UpperAscii;
    var u := UpperAscii(w);
    assert forall i | 0 <= i < |w| :: u[i] == UpperAsciiChar(w[i]) == keyword[i];
  }

  /** The classes, keyword by keyword. */
  function KeywordMeans(k: string): Class {
    match k
    case "SELECT" => Read
    case "WITH" => Read
    case "EXPLAIN" => Read
    case "SHOW" => Read
    case "VALUES" => Read
    case "TABLE" => Read
    case "FETCH" => Read
    case "INSERT" => DML
    case "UPDATE" => DML
    case "DELETE" => DML
    case "MERGE" => DML
    case "TRUNCATE" => DML
    case "COPY" => DML
    case "CALL" => DML
    case "CREATE" => DDL
    case "ALTER" => DDL
    case "DROP" => DDL
    case "GRANT" => DDL
    case "REVOKE" => DDL
    case "COMMENT" => DDL
    case "REINDEX" => DDL
    case "VACUUM" => DDL
    case "ANALYZE" => DDL
    case _ => Other
  }

  lemma TableAgrees(k: string)
    ensures ClassOf(k) == KeywordMeans(k)
  {
  }

  // ----- what stands before it -----

  /** Neither blanks nor comments before a statement change its class. */
  lemma BlankBefore(c: char, s: string)
    requires c == ' ' || c == '\t' || c == '\n' || c == '\r'
    ensures StripComments([c] + s) == [c] + StripComments(s)
    ensures Classify([c] + s) == Classify(s) && IsDangerous([c] + s) == IsDangerous(s)
  {
    CleanPrefix([c], s);
    CleanPrefix([c], StripBlocks(s));
    hide StripBlocks, StripLines, Upper, UpperAscii, Contains;
    assert ([c] + StripComments(s))[1..] == StripComments(s);
    assert TrimLeft([c] + StripComments(s)) == TrimLeft(StripComments(s));
  }

  lemma {:induction false} ClosesHere(x: string, rest: string)
    requires forall i | 0 <= i < |x| :: !(x[i] == '*' && (if i + 1 < |x| then x[i + 1] else '*') == '/')
    ensures CloseAt(x + "*/" + rest) == Some(|x|)
  {
    var s := x + "*/" + rest;
    if x != "" {
      assert s[0] == x[0] && s[1] == (if 1 < |x| then x[1] else '*');
      assert s[1..] == x[1..] + "*/" + rest;
      ClosesHere(x[1..], rest);
    }
  }

  /** A block comment is one blank, wherever the next close stands first. */
  lemma BlockBefore(x: string, s: string)
    requires forall i | 0 <= i < |x| :: !(x[i] == '*' && (if i + 1 < |x| then x[i + 1] else '*') == '/')
    ensures StripComments("/*" + x + "*/" + s) == " " + StripComments(s)
    ensures Classify("/*" + x + "*/" + s) == Classify(s)
  {
    var t := "/*" + x + "*/" + s;
    ClosesHere(x, s);
    assert t[2..] == x + "*/" + s;
    assert t[2..][|x| + 2..] == s;
    assert StripBlocks(t) == " " + StripBlocks(s);
    CleanPrefix(" ", StripBlocks(s));
    BlankBefore(' ', s);
    hide StripBlocks, StripLines, UpperAscii;
    assert (" " + StripComments(s))[1..] == StripComments(s);
  }

  /** A line comment is one blank, up to its newline. */
  lemma LineBefore(x: string, s: string)
    requires '\n' !in x && '/' !in x
    ensures StripComments("--" + x + "\n" + s) == " \n" + StripComments(s)
    ensures Classify("--" + x + "\n" + s) == Classify(s)
  {
    LineIsBlank(x, s);
    BlankBefore('\n', s);
    BlankBefore(' ', "\n" + s);
    SameStripped("--" + x + "\n" + s, " " + ("\n" + s));
  }

  lemma SameStripped(s: string, t: string)
    requires StripComments(s) == StripComments(t)
    ensures Classify(s) == Classify(t)
  {
    hide StripComments, HeadWord;
  }

  lemma LineIsBlank(x: string, s: string)
    requires '\n' !in x && '/' !in x
    ensures StripComments("--" + x + "\n" + s) == " \n" + StripComments(s)
    ensures StripComments(" " + ("\n" + s)) == " \n" + StripComments(s)
  {
    var lead := "--" + x + "\n";
    var b := StripBlocks(s);
    hide StripBlocks, StripLines;
    KeepsLetters("\n", s);
    KeepsLetters(" ", "\n" + s);
    NoSlash(lead, s);
    assert lead + b == "--" + (x + ("\n" + b));
    LineSkipped(x, b);
    CleanPrefix("\n", b);
  }

  lemma LineSkipped(x: string, b: string)
    requires '\n' !in x
    ensures StripLines("--" + (x + ("\n" + b))) == " " + StripLines("\n" + b)
  {
    var s := "--" + (x + ("\n" + b));
    assert s[2..] == x + ("\n" + b);
    SkipsTo(x, b);
    hide FromNewline;
    assert OpensLine(s);
  }

  lemma {:induction false} NoSlash(p: string, s: string)
    requires '/' !in p
    ensures StripBlocks(p + s) == p + StripBlocks(s)
  {
    if p == "" {
      assert p + s == s;
    } else {
      assert p[0] in p;
      assert (p + s)[1..] == p[1..] + s;
      NoSlash(p[1..], s);
    }
  }

  lemma {:induction false} SkipsTo(x: string, b: string)
    requires '\n' !in x
    ensures FromNewline(x + ("\n" + b)) == "\n" + b
  {
    if x == "" {
      assert x + ("\n" + b) == "\n" + b;
    } else {
      assert x[0] in x;
      assert (x + ("\n" + b))[1..] == x[1..] + ("\n" + b);
      SkipsTo(x[1..], b);
    }
  }

  // ----- statements without a WHERE -----

  /** DELETE FROM, in either case, with no WHERE after it is dangerous. */
  lemma BareDelete(d: string, rest: string)
    requires Upper(d) == "DELETE FROM" && !Contains(Upper(StripComments(rest)), "WHERE")
    ensures IsDangerous(d + rest) && Classify(d + rest) == DML
  {
    hide *;
    DeleteFrom();
    LettersAndBlanks(d, "DELETE FROM");
    KeepsLetters(d, rest);
    var y := StripComments(rest);
    var c := TrimSpace(d + y);
    Trimmed(d, y);
    var p, q := c[|d|..], y[|c| - |d|..];
    assert c == d + p && y == p + q;
    UpperPrefix(d, p, q);
    NoWhereThere(Upper(c), Upper(y));
    Flagged(d + rest, Upper(c));
    DangerousIsDML(d + rest);
  }

  lemma Flagged(s: string, u: string)
    requires u == Upper(TrimSpace(StripComments(s))) && "DELETE FROM" <= u && !MentionsWhere(u)
    ensures IsDangerous(s)
  {
    hide Upper, TrimSpace, StripComments, MentionsWhere;
  }

  lemma NoWhereThere(u: string, y: string)
    requires u <= "DELETE FROM" + y && !Contains(y, "WHERE")
    ensures !MentionsWhere(u)
  {
    hide Contains, MentionsWhere;
    if MentionsWhere(u) { WhereIsLater(u, y); }
  }

  lemma KeepsLetters(d: string, rest: string)
    requires '/' !in d && '-' !in d
    ensures StripComments(d + rest) == d + StripComments(rest)
  {
    CleanPrefix(d, rest);
    CleanPrefix(d, StripBlocks(rest));
  }

  lemma UpperPrefix(d: string, p: string, q: string)
    ensures Upper(d) <= Upper(d + p) <= Upper(d) + Upper(p + q)
  {
    hide Upper;
    UpperConcat(d, p);
    UpperConcat(p, q);
    assert Upper(d) + (Upper(p) + Upper(q)) == Upper(d) + Upper(p) + Upper(q);
  }

  /** A text that upper-cases to these letters opens no comment and has no blank at
      either end. */
  lemma LettersAndBlanks(d: string, t: string)
    requires Upper(d) == t && t != "" && '/' !in t && '-' !in t && 'A' <= t[0] <= 'Z' && 'A' <= t[|t| - 1] <= 'Z'
    ensures |d| == |t| && '/' !in d && '-' !in d && !IsSpace(d[0]) && !IsSpace(d[|d| - 1])
  {
    hide *;
    NoMarks(d, t);
    var n := |d| - 1;
    assert UpperChar(d[0]) == t[0] && UpperChar(d[n]) == t[n];
    NotSpace(d[0]);
    NotSpace(d[n]);
  }

  lemma DeleteFrom()
    ensures var t := "DELETE FROM"; |t| == 11 && '/' !in t && '-' !in t && t[0] == 'D' && t[10] == 'M'
  {
  }

  lemma NoMarks(d: string, t: string)
    requires Upper(d) == t && '/' !in t && '-' !in t
    ensures '/' !in d && '-' !in d
  {
    hide *;
    forall i | 0 <= i < |d| ensures d[i] != '/' && d[i] != '-' {
      assert UpperChar(d[i]) == t[i] && t[i] in t;
      KeepsMarks(d[i]);
    }
  }

  lemma KeepsMarks(c: char)
    ensures UpperChar(c) != '/' ==> c != '/'
    ensures UpperChar(c) != '-' ==> c != '-'
  {
  }

  lemma NotSpace(c: char)
    requires 'A' <= UpperChar(c) <= 'Z'
    ensures !IsSpace(c)
  {
  }

  lemma Trimmed(d: string, y: string)
    requires d != "" && !IsSpace(d[0]) && !IsSpace(d[|d| - 1])
    ensures d <= TrimSpace(d + y) <= d + y
  {
    hide IsSpace;
    assert (d + y)[0] == d[0];
    TrimRightConcat(d, y);
  }

  /** After DELETE FROM, a WHERE can only be in the rest. */
  lemma WhereIsLater(u: string, y: string)
    requires u <= "DELETE FROM" + y && MentionsWhere(u)
    ensures Contains(y, "WHERE")
  {
    var i: nat := 0;
    if Contains(u, " WHERE ") { i := WhereAt(u); } else { i := |u| - 6; }
    assert u[i..][..6] == " WHERE";
    assert u[i + 1] == 'W' && u[i + 2] == 'H' && u[i + 3] == 'E' && u[i + 4] == 'R' && u[i + 5] == 'E';
    var d := "DELETE FROM";
    assert forall j | 0 <= j < 11 :: (d + y)[j] == d[j] && d[j] != 'W';
    assert i + 1 >= 11;
    assert y[i - 10..][..5] == "WHERE";
    ContainsAt(y, "WHERE", i - 10);
  }

  lemma WhereAt(u: string) returns (i: nat)
    requires Contains(u, " WHERE ")
    ensures i + 6 <= |u| && u[i..][..6] == " WHERE"
  {
    i := ContainsWhere(u, " WHERE ");
    assert u[i..][..6] == " WHERE "[..6];
  }
}
