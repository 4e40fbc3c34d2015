/** Lexical statement classification (internal/sqlcheck/classify.go). */
module SqlCheck {
  import opened Base
  import opened Text

  datatype Class = Other | Read | DML | DDL

  // ----- comment stripping -----

  /** Position of the first star-slash, as the lazy .*? of blockComment finds it. */
  function CloseAt(s: string): (r: Option<nat>)
    ensures r.Some? ==> r.value + 2 <= |s| && s[r.value] == '*' && s[r.value + 1] == '/'
    decreases |s|
  {
    if |s| < 2 then None
    else if s[0] == '*' && s[1] == '/' then Some(0)
    else
      match CloseAt(s[1..])
      case None => None
      case Some(k) => Some(k + 1)
  }

  predicate OpensBlock(s: string) {
    |s| >= 2 && s[0] == '/' && s[1] == '*'
  }

  predicate OpensLine(s: string) {
    |s| >= 2 && s[0] == '-' && s[1] == '-'
  }

  /** s opens with a whole block comment. */
  predicate HasBlock(s: string) {
    OpensBlock(s) && CloseAt(s[2..]).Some?
  }

  function AfterBlock(s: string): (r: string)
    requires HasBlock(s)
    ensures |r| < |s|
  {
    s[2..][CloseAt(s[2..]).value + 2..]
  }

  /** blockComment.ReplaceAllString(s, " "): leftmost matches, each replaced by
      one space; an opener that is never closed is ordinary text. */
  function StripBlocks(s: string): string
    decreases |s|
  {
    if s == "" then ""
    else if HasBlock(s) then " " + StripBlocks(AfterBlock(s))
    else [s[0]] + StripBlocks(s[1..])
  }

  /** Text from the first newline on: what [^\n]* leaves. */
  function FromNewline(s: string): (r: string)
    ensures |r| <= |s|
    ensures r == "" || r[0] == '\n'
  {
    if s == "" || s[0] == '\n' then s else FromNewline(s[1..])
  }

  /** lineComment.ReplaceAllString(s, " ") */
  function StripLines(s: string): string
    decreases |s|
  {
    if s == "" then ""
    else if OpensLine(s) then " " + StripLines(FromNewline(s[2..]))
    else [s[0]] + StripLines(s[1..])
  }

  function StripComments(s: string): string {
    StripLines(StripBlocks(s))
  }

  // ----- characters -----

  /** unicode.IsSpace */
  predicate IsSpace(c: char) {
    c == ' ' || c == '\t' || c == '\n' || c == '\U{0B}' || c == '\U{0C}' || c == '\r' || c == '\U{85}'
    || c == '\U{A0}' || c == '\U{1680}' || '\U{2000}' <= c <= '\U{200A}' || c == '\U{2028}'
    || c == '\U{2029}' || c == '\U{202F}' || c == '\U{205F}' || c == '\U{3000}'
  }

  /** firstWord looks at bytes, so of a non-ASCII character it sees the UTF-8
      lead byte as Latin-1, where every lead byte but 0xD7 (the block from
      U+05C0) is a letter. */
  predicate IsWordByte(c: char) {
    'a' <= c <= 'z' || 'A' <= c <= 'Z' || c == '_'
    || (c >= '\U{80}' && !('\U{5C0}' <= c <= '\U{5FF}'))
  }

  function UpperAsciiChar(c: char): char {
    if 'a' <= c <= 'z' then c - 'a' + 'A' else c
  }

  /** strings.ToUpper, as far as the keywords can tell: apart from the ASCII
      letters only dotless i and long s have an ASCII upper case. */
  function UpperChar(c: char): char {
    if c == '\U{131}' then 'I' else if c == '\U{17F}' then 'S' else UpperAsciiChar(c)
  }

  function Upper(s: string): (r: string)
    ensures |r| == |s|
    ensures forall i | 0 <= i < |s| :: r[i] == UpperChar(s[i])
  {
    if s == "" then "" else [UpperChar(s[0])] + Upper(s[1..])
  }

  function UpperAscii(s: string): (r: string)
    ensures |r| == |s|
    ensures forall i | 0 <= i < |s| :: r[i] == UpperAsciiChar(s[i])
  {
    if s == "" then "" else [UpperAsciiChar(s[0])] + UpperAscii(s[1..])
  }

  function TrimLeft(s: string): (r: string)
    ensures r == "" || !IsSpace(r[0])
    ensures |r| <= |s|
  {
    if s == "" || !IsSpace(s[0]) then s else TrimLeft(s[1..])
  }

  function TrimRight(s: string): (r: string)
    ensures r <= s
    ensures r == "" || !IsSpace(r[|r| - 1])
    decreases |s|
  {
    if s == "" || !IsSpace(s[|s| - 1]) then s else TrimRight(s[..|s| - 1])
  }

  /** strings.TrimSpace */
  function TrimSpace(s: string): string {
    TrimRight(TrimLeft(s))
  }

  function HasSuffix(s: string, t: string): bool {
    |t| <= |s| && s[|s| - |t|..] == t
  }

  // ----- classification -----

  function WordEnd(s: string): (n: nat)
    ensures n <= |s|
    ensures forall i | 0 <= i < n :: IsWordByte(s[i])
    ensures n < |s| ==> !IsWordByte(s[n])
  {
    if s == "" || !IsWordByte(s[0]) then 0 else 1 + WordEnd(s[1..])
  }

  function HeadWord(s: string): string {
    var t := TrimLeft(s);
    UpperAscii(t[..WordEnd(t)])
  }

  /** firstWord: an index that runs to the end of the leading identifier. */
  method FirstWord(s: string) returns (w: string)
    ensures w == HeadWord(s)
  {
    var t := TrimLeft(s);
    var end := 0;
    while end < |t| && IsWordByte(t[end])
      invariant 0 <= end <= |t|
      invariant forall i | 0 <= i < end :: IsWordByte(t[i])
    {
      end := end + 1;
    }
    assert end == WordEnd(t);
    w := UpperAscii(t[..end]);
  }

  const READS: set<string> := {"SELECT", "WITH", "EXPLAIN", "SHOW", "VALUES", "TABLE", "FETCH"}
  const WRITES: set<string> := {"INSERT", "UPDATE", "DELETE", "MERGE", "TRUNCATE", "COPY", "CALL"}
  const DEFINITIONS: set<string> :=
    {"CREATE", "ALTER", "DROP", "GRANT", "REVOKE", "COMMENT", "REINDEX", "VACUUM", "ANALYZE"}

  function ClassOf(head: string): Class {
    if head in READS then Read
    else if head in WRITES then DML
    else if head in DEFINITIONS then DDL
    else Other
  }

  function Classify(sql: string): Class {
    ClassOf(HeadWord(StripComments(sql)))
  }

  /** The cleaned, upper-cased text mentions a WHERE clause. */
  predicate MentionsWhere(upper: string) {
    Contains(upper, " WHERE ") || HasSuffix(upper, " WHERE")
  }

  function Cleaned(sql: string): string {
    Upper(TrimSpace(StripComments(sql)))
  }

  predicate IsDangerous(sql: string) {
    var upper := Cleaned(sql);
    ("DELETE FROM" <= upper || ("UPDATE " <= upper && Contains(upper, " SET ")))
    && !MentionsWhere(upper)
  }

  // ----- stripping leaves nothing to strip -----

  predicate NoClose(s: string) {
    CloseAt(s).None?
  }

  /** No opener with a closer after it. */
  predicate NoBlock(s: string)
    decreases |s|
  {
    s == "" || (!HasBlock(s) && NoBlock(s[1..]))
  }

  predicate NoLine(s: string)
    decreases |s|
  {
    s == "" || (!OpensLine(s) && NoLine(s[1..]))
  }

  lemma {:induction false} StripBlocksFixed(s: string)
    requires NoBlock(s)
    ensures StripBlocks(s) == s
  {
    if s != "" { StripBlocksFixed(s[1..]); }
  }

  lemma {:induction false} StripLinesFixed(s: string)
    requires NoLine(s)
    ensures StripLines(s) == s
  {
    if s != "" { StripLinesFixed(s[1..]); }
  }

  /** Stripping blocks never makes a closer. */
  lemma {:induction false} StripBlocksNoClose(s: string)
    requires NoClose(s)
    ensures NoClose(StripBlocks(s)) && StripBlocks(s) == s
    decreases |s|
  {
    if s != "" {
      CloseLater(s, 1);
      if |s| >= 2 { CloseLater(s, 2); }
      StripBlocksNoClose(s[1..]);
    }
  }

  /** A text with no closer has none further on. */
  lemma {:induction false} CloseLater(s: string, i: nat)
    requires NoClose(s) && i <= |s|
    ensures NoClose(s[i..])
  {
    if i > 0 {
      if |s| >= 2 {
        CloseLater(s[1..], i - 1);
        assert s[1..][i - 1..] == s[i..];
      }
    }
  }

  lemma {:induction false} StripBlocksLeavesNone(s: string)
    ensures NoBlock(StripBlocks(s))
    decreases |s|
  {
    if s == "" {
    } else if HasBlock(s) {
      var rest := AfterBlock(s);
      StripBlocksLeavesNone(rest);
      assert StripBlocks(s)[1..] == StripBlocks(rest);
    } else {
      var r := StripBlocks(s[1..]);
      StripBlocksLeavesNone(s[1..]);
      assert ([s[0]] + r)[1..] == r;
      if OpensBlock([s[0]] + r) {
        assert s[1] == '*';
        StripBlocksNoClose(s[2..]);
        assert s[1..][1..] == s[2..] && r == ['*'] + s[2..];
        assert ([s[0]] + r)[2..] == s[2..];
      }
    }
  }

  lemma {:induction false} StripLinesLeavesNone(s: string)
    ensures NoLine(StripLines(s))
    decreases |s|
  {
    if s == "" {
    } else if OpensLine(s) {
      StripLinesLeavesNone(FromNewline(s[2..]));
      assert StripLines(s)[1..] == StripLines(FromNewline(s[2..]));
    } else {
      StripLinesLeavesNone(s[1..]);
      assert StripLines(s)[1..] == StripLines(s[1..]);
    }
  }

  lemma {:induction false} NoBlockLater(s: string)
    requires NoBlock(s)
    ensures NoBlock(FromNewline(s))
  {
    if s != "" && s[0] != '\n' { NoBlockLater(s[1..]); }
  }

  lemma {:induction false} NoCloseAfterNewline(s: string)
    requires NoClose(s)
    ensures NoClose(FromNewline(s))
  {
    if s != "" && s[0] != '\n' {
      CloseLater(s, 1);
      NoCloseAfterNewline(s[1..]);
    }
  }

  lemma {:induction false} StripLinesNoClose(s: string)
    requires NoClose(s)
    ensures NoClose(StripLines(s))
    decreases |s|
  {
    if s == "" {
    } else if OpensLine(s) {
      CloseLater(s, 2);
      NoCloseAfterNewline(s[2..]);
      StripLinesNoClose(FromNewline(s[2..]));
      assert StripLines(s)[1..] == StripLines(FromNewline(s[2..]));
    } else {
      CloseLater(s, 1);
      StripLinesNoClose(s[1..]);
      assert StripLines(s)[1..] == StripLines(s[1..]);
    }
  }

  lemma {:induction false} StripLinesKeepsNoBlock(s: string)
    requires NoBlock(s)
    ensures NoBlock(StripLines(s))
    decreases |s|
  {
    if s == "" {
    } else if OpensLine(s) {
      assert s[1..][1..] == s[2..];
      NoBlockLater(s[2..]);
      StripLinesKeepsNoBlock(FromNewline(s[2..]));
      assert StripLines(s)[1..] == StripLines(FromNewline(s[2..]));
    } else {
      var r := StripLines(s[1..]);
      StripLinesKeepsNoBlock(s[1..]);
      assert ([s[0]] + r)[1..] == r;
      if OpensBlock([s[0]] + r) {
        assert s[1] == '*';
        assert s[1..][1..] == s[2..] && r == ['*'] + StripLines(s[2..]);
        StripLinesNoClose(s[2..]);
        assert ([s[0]] + r)[2..] == StripLines(s[2..]);
      }
    }
  }

  /** Comment stripping is idempotent on every text. */
  lemma StripIdempotent(s: string)
    ensures StripComments(StripComments(s)) == StripComments(s)
  {
    StripBlocksLeavesNone(s);
    StripLinesKeepsNoBlock(StripBlocks(s));
    StripBlocksFixed(StripComments(s));
    StripLinesLeavesNone(StripBlocks(s));
    StripLinesFixed(StripComments(s));
  }

  /** So both verdicts are the same on text already stripped. */
  lemma VerdictsIgnoreStripping(s: string)
    ensures Classify(StripComments(s)) == Classify(s)
    ensures IsDangerous(StripComments(s)) == IsDangerous(s)
  {
    StripIdempotent(s);
  }

  // ----- flagged statements are writes -----

  lemma HeadIs(s: string, w: string, follow: char)
    requires w != "" && forall i | 0 <= i < |w| :: 'A' <= w[i] <= 'Z' && w[i] != 'I' && w[i] != 'S'
    requires !IsWordByte(follow) && !('A' <= follow <= 'Z')
    requires w + [follow] <= Upper(TrimSpace(s))
    ensures HeadWord(s) == w
  {
    hide Upper, UpperAscii, TrimRight, TrimLeft, WordEnd;
    var t := TrimLeft(s);
    var c := TrimSpace(s);
    var n := |w|;
    assert c <= t && |c| > n;
    forall i | 0 <= i < n ensures IsWordByte(t[i]) && UpperAsciiChar(t[i]) == w[i] {
      assert UpperChar(c[i]) == (w + [follow])[i] == w[i];
    }
    assert UpperChar(c[n]) == (w + [follow])[n] == follow;
    assert t[n] == follow;
    assert WordEnd(t) == n;
    assert UpperAscii(t[..n]) == w;
  }

  /** Every text IsDangerous flags is classified as a write. */
  lemma DangerousIsDML(s: string)
    requires IsDangerous(s)
    ensures Classify(s) == DML
  {
    hide Upper, TrimSpace, HeadWord, StripComments, Contains, MentionsWhere;
    var u := Cleaned(s);
    if "DELETE FROM" <= u {
      assert "DELETE" + [' '] == "DELETE FROM"[..7] == u[..7];
      HeadIs(StripComments(s), "DELETE", ' ');
    } else {
      assert "UPDATE" + [' '] == "UPDATE ";
      HeadIs(StripComments(s), "UPDATE", ' ');
    }
  }
}
