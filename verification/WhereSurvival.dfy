/** When does comment stripping keep the WHERE keyword of `a WHERE k`? Comments
    are recognised inside quoted literals too (internal/sqlcheck/classify.go),
    so the text of a value can hide the keyword that follows it. */
module WhereSurvival {
  import opened Base
  import opened Text
  import opened SqlCheck

  // ----- what a text leaves open at its end -----

  /** Reading a block by block, an opener is left without its closer. */
  predicate LeavesBlockOpen(a: string)
    decreases |a|
  {
    a != "" &&
    if HasBlock(a) then LeavesBlockOpen(AfterBlock(a))
    else OpensBlock(a) || LeavesBlockOpen(a[1..])
  }

  /** A line comment reaches the end of a. */
  predicate LeavesLineOpen(a: string)
    decreases |a|
  {
    a != "" &&
    if OpensLine(a) then FromNewline(a[2..]) == "" || LeavesLineOpen(FromNewline(a[2..]))
    else LeavesLineOpen(a[1..])
  }

  /** The stripped text of a up to the opener it leaves open. */
  function BeforeBlock(a: string): string
    decreases |a|
  {
    if a == "" then ""
    else if HasBlock(a) then " " + BeforeBlock(AfterBlock(a))
    else if OpensBlock(a) then ""
    else [a[0]] + BeforeBlock(a[1..])
  }

  function BeforeLine(a: string): string
    decreases |a|
  {
    if a == "" then ""
    else if OpensLine(a) then
      if FromNewline(a[2..]) == "" then "" else " " + BeforeLine(FromNewline(a[2..]))
    else [a[0]] + BeforeLine(a[1..])
  }

  // ----- stripping across a blank: t is text that begins with one -----

  predicate StartsBlank(t: string) {
    t != "" && t[0] == ' '
  }

  lemma Slice(a: string, t: string, n: nat)
    requires n <= |a|
    ensures (a + t)[n..] == a[n..] + t
  {
  }

  // One unfolding at a time, so that the proofs below control how deep they look.

  lemma LineStep(s: string)
    ensures s == "" ==> StripLines(s) == ""
    ensures OpensLine(s) ==> StripLines(s) == " " + StripLines(FromNewline(s[2..]))
    ensures s != "" && !OpensLine(s) ==> StripLines(s) == [s[0]] + StripLines(s[1..])
  {
  }

  lemma BlockStep(s: string)
    ensures s == "" ==> StripBlocks(s) == ""
    ensures HasBlock(s) ==> StripBlocks(s) == " " + StripBlocks(AfterBlock(s))
    ensures s != "" && !HasBlock(s) ==> StripBlocks(s) == [s[0]] + StripBlocks(s[1..])
  {
  }

  lemma {:induction false} CloseAcross(a: string, t: string)
    requires StartsBlank(t)
    ensures CloseAt(a).Some? ==> CloseAt(a + t) == CloseAt(a)
    ensures CloseAt(a).None? && CloseAt(t).None? ==> CloseAt(a + t).None?
    ensures CloseAt(a).None? && CloseAt(t).Some? ==> CloseAt(a + t) == Some(|a| + CloseAt(t).value)
  {
    if a == "" {
      assert a + t == t;
    } else {
      Slice(a, t, 1);
      CloseAcross(a[1..], t);
      if |a| == 1 { assert (a + t)[1] == ' '; }
    }
  }

  lemma OpensAcross(a: string, t: string)
    requires a != "" && StartsBlank(t)
    ensures OpensBlock(a + t) == OpensBlock(a)
    ensures OpensLine(a + t) == OpensLine(a)
  {
    if |a| == 1 { assert (a + t)[1] == ' '; }
  }

  /** A comment closed within a is the same comment in a + t. */
  lemma BlockAcross(a: string, t: string)
    requires StartsBlank(t) && HasBlock(a)
    ensures HasBlock(a + t) && AfterBlock(a + t) == AfterBlock(a) + t
  {
    Slice(a, t, 2);
    CloseAcross(a[2..], t);
    Slice(a[2..], t, CloseAt(a[2..]).value + 2);
  }

  lemma {:induction false} BlocksAcross(a: string, t: string)
    requires StartsBlank(t)
    requires LeavesBlockOpen(a) ==> NoClose(t)
    ensures StripBlocks(a + t) == StripBlocks(a) + StripBlocks(t)
    decreases |a|
  {
    hide StripBlocks, CloseAt;
    BlockStep(a);
    BlockStep(a + t);
    if a == "" {
      assert a + t == t;
    } else {
      OpensAcross(a, t);
      assert (a + t)[0] == a[0];
      Slice(a, t, 1);
      if HasBlock(a) {
        BlockAcross(a, t);
        BlocksAcross(AfterBlock(a), t);
      } else if OpensBlock(a) {
        UnclosedIsPlain(a, t);
      } else {
        BlocksAcross(a[1..], t);
      }
    }
  }

  /** From an opener with no closer after it, nothing is stripped. */
  lemma UnclosedIsPlain(a: string, t: string)
    requires StartsBlank(t) && NoClose(t)
    requires OpensBlock(a) && !HasBlock(a)
    ensures StripBlocks(a + t) == StripBlocks(a) + StripBlocks(t)
  {
    Slice(a, t, 2);
    CloseAcross(a[2..], t);
    PlainTail(a);
    PlainTail(a + t);
    StripBlocksNoClose(t);
  }

  lemma PlainTail(a: string)
    requires OpensBlock(a) && !HasBlock(a)
    ensures StripBlocks(a) == a
  {
    assert a[1..][1..] == a[2..];
    StripBlocksNoClose(a[2..]);
    assert StripBlocks(a[1..]) == [a[1]] + a[2..];
    assert a == [a[0]] + ([a[1]] + a[2..]);
  }

  lemma {:induction false} BlocksSwallow(a: string, t: string)
    requires StartsBlank(t) && LeavesBlockOpen(a) && CloseAt(t).Some?
    ensures StripBlocks(a + t) == BeforeBlock(a) + (" " + StripBlocks(t[CloseAt(t).value + 2..]))
    decreases |a|
  {
    hide StripBlocks, CloseAt;
    BlockStep(a + t);
    OpensAcross(a, t);
    assert (a + t)[0] == a[0];
    Slice(a, t, 1);
    if HasBlock(a) {
      BlockAcross(a, t);
      BlocksSwallow(AfterBlock(a), t);
    } else if OpensBlock(a) {
      Slice(a, t, 2);
      CloseAcross(a[2..], t);
      assert AfterBlock(a + t) == t[CloseAt(t).value + 2..];
    } else {
      BlocksSwallow(a[1..], t);
    }
  }

  lemma {:induction false} NewlineAcross(a: string, t: string)
    requires StartsBlank(t)
    ensures FromNewline(a + t) == if FromNewline(a) == "" then FromNewline(t) else FromNewline(a) + t
  {
    if a == "" {
      assert a + t == t;
    } else {
      Slice(a, t, 1);
      NewlineAcross(a[1..], t);
    }
  }

  lemma LineAcross(a: string, t: string)
    requires StartsBlank(t) && OpensLine(a)
    ensures OpensLine(a + t)
    ensures FromNewline((a + t)[2..])
            == if FromNewline(a[2..]) == "" then FromNewline(t) else FromNewline(a[2..]) + t
  {
    Slice(a, t, 2);
    NewlineAcross(a[2..], t);
  }

  lemma {:induction false} LinesAcross(a: string, t: string)
    requires StartsBlank(t) && !LeavesLineOpen(a)
    ensures StripLines(a + t) == StripLines(a) + StripLines(t)
    decreases |a|
  {
    hide FromNewline, StripLines;
    LineStep(a);
    LineStep(a + t);
    if a == "" {
      assert a + t == t;
    } else {
      OpensAcross(a, t);
      assert (a + t)[0] == a[0];
      if OpensLine(a) {
        LineAcross(a, t);
        LinesAcross(FromNewline(a[2..]), t);
      } else {
        Slice(a, t, 1);
        LinesAcross(a[1..], t);
      }
    }
  }

  lemma {:induction false} LinesSwallow(a: string, t: string)
    requires StartsBlank(t) && LeavesLineOpen(a)
    ensures StripLines(a + t) == BeforeLine(a) + (" " + StripLines(FromNewline(t)))
    decreases |a|
  {
    hide FromNewline;
    OpensAcross(a, t);
    if OpensLine(a) {
      LineAcross(a, t);
      var r := FromNewline(a[2..]);
      if r == "" {
        assert BeforeLine(a) == "";
      } else {
        LinesSwallow(r, t);
        assert StripLines(a + t) == " " + StripLines(r + t);
      }
    } else {
      Slice(a, t, 1);
      LinesSwallow(a[1..], t);
      assert (a + t)[0] == a[0];
      assert StripLines(a + t) == [a[0]] + StripLines(a[1..] + t);
    }
  }

  // ----- the WHERE keyword -----

  /** Comments opened in a and running over the keyword hide the WHERE before k. */
  predicate HidesWhere(a: string, k: string) {
    (LeavesBlockOpen(a) && CloseAt(" WHERE " + k).Some?) || LeavesLineOpen(StripBlocks(a))
  }

  /** What stripping leaves of `a WHERE k` when the keyword is hidden. */
  function Leftover(a: string, k: string): string
    requires HidesWhere(a, k)
  {
    var t := " WHERE " + k;
    if LeavesBlockOpen(a) && CloseAt(t).Some? then
      StripLines(BeforeBlock(a) + (" " + StripBlocks(t[CloseAt(t).value + 2..])))
    else BeforeLine(StripBlocks(a)) + (" " + StripLines(FromNewline(StripBlocks(t))))
  }

  lemma HiddenStrips(a: string, k: string)
    requires HidesWhere(a, k)
    ensures StripComments(a + " WHERE " + k) == Leftover(a, k)
  {
    var t := " WHERE " + k;
    assert a + " WHERE " + k == a + t;
    if LeavesBlockOpen(a) && CloseAt(t).Some? {
      BlocksSwallow(a, t);
    } else {
      BlocksAcross(a, t);
      LinesSwallow(StripBlocks(a), StripBlocks(t));
    }
  }

  /** A word with no comment character survives in front of any text. */
  lemma {:induction false} CleanPrefix(p: string, s: string)
    requires '/' !in p && '-' !in p
    ensures StripBlocks(p + s) == p + StripBlocks(s)
    ensures StripLines(p + s) == p + StripLines(s)
  {
    if p == "" {
      assert p + s == s;
    } else {
      assert p[0] in p;
      assert (p + s)[1..] == p[1..] + s;
      CleanPrefix(p[1..], s);
    }
  }

  lemma KeptStrips(a: string, k: string)
    requires !HidesWhere(a, k)
    ensures StripComments(a + " WHERE " + k) == StripComments(a) + " WHERE " + StripComments(k)
  {
    hide LeavesBlockOpen, LeavesLineOpen, StripBlocks, StripLines;
    var t := " WHERE " + k;
    assert a + " WHERE " + k == a + t;
    BlocksAcross(a, t);
    CleanPrefix(" WHERE ", k);
    CleanPrefix(" WHERE ", StripBlocks(k));
    LinesAcross(StripBlocks(a), StripBlocks(t));
  }

  // ----- trimming and casing do not lose it -----

  lemma {:induction false} TrimRightConcat(p: string, y: string)
    ensures TrimRight(p + y) == TrimRight(p) || p <= TrimRight(p + y)
    decreases |y|
  {
    var s := p + y;
    if y == "" {
      assert s == p;
    } else if IsSpace(s[|s| - 1]) {
      assert s[..|s| - 1] == p + y[..|y| - 1];
      TrimRightConcat(p, y[..|y| - 1]);
    }
  }

  lemma {:induction false} UpperConcat(a: string, b: string)
    ensures Upper(a + b) == Upper(a) + Upper(b)
  {
    if a == "" {
      assert a + b == b;
    } else {
      assert (a + b)[1..] == a[1..] + b;
      UpperConcat(a[1..], b);
    }
  }

  lemma UpperFixed(s: string)
    requires forall c | c in s :: UpperChar(c) == c
    ensures Upper(s) == s
  {
    hide Upper;
    assert forall i | 0 <= i < |s| :: s[i] in s;
  }

  lemma WhereMentioned(x: string, y: string)
    requires x != "" && !IsSpace(x[0])
    ensures MentionsWhere(Upper(TrimSpace(x + " WHERE " + y)))
  {
    hide Upper, Contains, MentionsWhere, TrimRight, IsSpace;
    var p := x + " WHERE ";
    assert (p + y)[0] == x[0];
    TrimRightConcat(p, y);
    if p <= TrimRight(p + y) {
      MentionsByContains(x, TrimRight(p + y));
    } else {
      TrimWhere(x);
      MentionsBySuffix(x);
    }
  }

  lemma MentionsByContains(x: string, s: string)
    requires x + " WHERE " <= s
    ensures MentionsWhere(Upper(s))
  {
    hide Upper, Contains;
    var rest := s[|x + " WHERE "|..];
    assert s == x + " WHERE " + rest;
    UpperConcat(x + " WHERE ", rest);
    UpperConcat(x, " WHERE ");
    UpperFixed(" WHERE ");
    ContainsConcat(Upper(x), " WHERE ", Upper(rest));
  }

  lemma MentionsBySuffix(x: string)
    ensures MentionsWhere(Upper(x + " WHERE"))
  {
    hide Upper, Contains;
    UpperConcat(x, " WHERE");
    UpperFixed(" WHERE");
    var s := Upper(x) + " WHERE";
    assert s[|s| - 6..] == " WHERE";
  }

  lemma TrimWhere(x: string)
    ensures TrimRight(x + " WHERE ") == x + " WHERE"
  {
    var s := x + " WHERE ";
    assert s[|s| - 1] == ' ';
    assert s[..|s| - 1] == x + " WHERE";
    var t := x + " WHERE";
    assert t[|t| - 1] == 'E';
  }

  /** A statement whose own WHERE survives is never flagged. */
  lemma KeptIsSafe(a: string, k: string)
    requires a != "" && !IsSpace(a[0]) && a[0] != '/' && a[0] != '-'
    requires !HidesWhere(a, k)
    ensures !IsDangerous(a + " WHERE " + k)
  {
    hide MentionsWhere, TrimSpace, Upper, HidesWhere;
    KeptStrips(a, k);
    assert a == [a[0]] + a[1..];
    CleanPrefix([a[0]], a[1..]);
    CleanPrefix([a[0]], StripBlocks(a[1..]));
    WhereMentioned(StripComments(a), StripComments(k));
  }

  // ----- texts without comment openers -----

  ghost predicate NoPair(s: string, x: char, y: char) {
    forall i | 0 <= i < |s| - 1 :: !(s[i] == x && s[i + 1] == y)
  }

  lemma NoPairConcat(a: string, b: string, x: char, y: char)
    requires NoPair(a, x, y) && NoPair(b, x, y)
    requires a == "" || b == "" || a[|a| - 1] != x || b[0] != y
    ensures NoPair(a + b, x, y)
  {
    var s := a + b;
    forall i | 0 <= i < |s| - 1 ensures !(s[i] == x && s[i + 1] == y) {
      if i + 1 < |a| { assert s[i] == a[i] && s[i + 1] == a[i + 1]; }
      else if i >= |a| { assert s[i] == b[i - |a|] && s[i + 1] == b[i + 1 - |a|]; }
    }
  }

  lemma {:induction false} NoOpeners(a: string)
    requires NoPair(a, '/', '*') && NoPair(a, '-', '-')
    ensures !LeavesBlockOpen(a) && StripBlocks(a) == a && !LeavesLineOpen(a)
  {
    if a != "" {
      forall i | 0 <= i < |a[1..]| - 1
        ensures !(a[1..][i] == '/' && a[1..][i + 1] == '*') && !(a[1..][i] == '-' && a[1..][i + 1] == '-')
      {
        assert a[1..][i] == a[i + 1] && a[1..][i + 1] == a[i + 2];
      }
      NoOpeners(a[1..]);
      if |a| >= 2 {
        assert !(a[0] == '/' && a[0 + 1] == '*') && !(a[0] == '-' && a[0 + 1] == '-');
      }
    }
  }

  lemma CleanHasNoPair(p: string, x: char, y: char)
    requires x !in p
    ensures NoPair(p, x, y)
  {
    forall i | 0 <= i < |p| - 1 ensures !(p[i] == x && p[i + 1] == y) {
      assert p[i] in p;
    }
  }

  /** A clean prefix changes nothing about what is left open. */
  lemma {:induction false} CleanPrefixBlock(p: string, s: string)
    requires '/' !in p
    ensures LeavesBlockOpen(p + s) == LeavesBlockOpen(s) && BeforeBlock(p + s) == p + BeforeBlock(s)
  {
    if p == "" {
      assert p + s == s;
    } else {
      assert p[0] in p && (p + s)[0] == p[0];
      Slice(p, s, 1);
      CleanPrefixBlock(p[1..], s);
      assert BeforeBlock(p + s) == [p[0]] + BeforeBlock(p[1..] + s);
    }
  }

  lemma {:induction false} CleanPrefixLine(p: string, s: string)
    requires '-' !in p
    ensures LeavesLineOpen(p + s) == LeavesLineOpen(s) && BeforeLine(p + s) == p + BeforeLine(s)
  {
    if p == "" {
      assert p + s == s;
    } else {
      assert p[0] in p && (p + s)[0] == p[0];
      Slice(p, s, 1);
      CleanPrefixLine(p[1..], s);
      assert BeforeLine(p + s) == [p[0]] + BeforeLine(p[1..] + s);
    }
  }

  lemma CleanPrefixHides(p: string, s: string, k: string)
    requires '/' !in p && '-' !in p
    ensures HidesWhere(p + s, k) == HidesWhere(s, k)
    ensures HidesWhere(s, k) ==> Leftover(p + s, k) == p + Leftover(s, k)
  {
    hide LeavesBlockOpen, LeavesLineOpen, StripBlocks, StripLines, BeforeBlock, BeforeLine, CloseAt;
    CleanPrefixBlock(p, s);
    CleanPrefix(p, s);
    CleanPrefixLine(p, StripBlocks(s));
    var t := " WHERE " + k;
    if LeavesBlockOpen(s) && CloseAt(t).Some? {
      var y := " " + StripBlocks(t[CloseAt(t).value + 2..]);
      assert p + BeforeBlock(s) + y == p + (BeforeBlock(s) + y);
      CleanPrefix(p, BeforeBlock(s) + y);
    } else if HidesWhere(s, k) {
      var y := " " + StripLines(FromNewline(StripBlocks(t)));
      assert p + BeforeLine(StripBlocks(s)) + y == p + (BeforeLine(StripBlocks(s)) + y);
    }
  }
}
