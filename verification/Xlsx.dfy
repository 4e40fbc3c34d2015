/** Spreadsheet column names (xlsxColumnName in
    internal/server/handlers/export_formats.go): bijective base 26. */
module Xlsx {
  predicate IsName(s: string) {
    forall c | c in s :: 'A' <= c <= 'Z'
  }

  function Letter(d: nat): char
    requires d < 26
  {
    'A' + d as char
  }

  function Digit(c: char): int {
    c as int - 'A' as int
  }

  /** What a name stands for: A is 1, Z is 26, AA is 27. */
  function Value(s: string): int {
    if s == "" then 0 else 26 * Value(s[..|s| - 1]) + Digit(s[|s| - 1]) + 1
  }

  function ColumnName(n: int): string
    decreases n
  {
    if n <= 0 then "" else ColumnName((n - 1) / 26) + [Letter((n - 1) % 26)]
  }

  /** The loop takes digits from the right and prepends them. */
  method XlsxColumnName(n0: int) returns (out: string)
    ensures out == ColumnName(n0)
  {
    var n := n0;
    out := "";
    while n > 0
      invariant ColumnName(n) + out == ColumnName(n0)
      decreases n
    {
      ghost var before := ColumnName(n);
      n := n - 1;
      out := [Letter(n % 26)] + out;
      assert before == ColumnName(n / 26) + [Letter(n % 26)];
      n := n / 26;
    }
    assert ColumnName(n) == "";
  }

  /** Decoding a column's name gives the column. */
  lemma {:induction false} NameDecodes(n: nat)
    ensures IsName(ColumnName(n)) && Value(ColumnName(n)) == n
    ensures n > 0 <==> ColumnName(n) != ""
    decreases n
  {
    if n > 0 {
      NameDecodes((n - 1) / 26);
      var s := ColumnName(n);
      assert s[..|s| - 1] == ColumnName((n - 1) / 26);
      assert s[|s| - 1] == Letter((n - 1) % 26);
    }
  }

  /** Every name over A..Z is the name of the column it decodes to. */
  lemma {:induction false} NameOfValue(s: string)
    requires IsName(s)
    ensures Value(s) >= 0 && ColumnName(Value(s)) == s
    ensures s != "" ==> Value(s) > 0
  {
    if s != "" {
      var p, c := s[..|s| - 1], s[|s| - 1];
      assert forall x | x in p :: x in s;
      NameOfValue(p);
      assert c in s;
      var n := Value(s);
      assert n - 1 == 26 * Value(p) + Digit(c) && 0 <= Digit(c) < 26;
      assert (n - 1) / 26 == Value(p) && (n - 1) % 26 == Digit(c);
      assert s == p + [c];
    }
  }

  /** Positive integers and non-empty names over A..Z correspond one to one. */
  lemma Bijection(m: nat, n: nat, s: string)
    requires m > 0 && n > 0 && s != "" && IsName(s)
    ensures ColumnName(m) == ColumnName(n) <==> m == n
    ensures exists k: nat :: k > 0 && ColumnName(k) == s
  {
    NameDecodes(m);
    NameDecodes(n);
    NameOfValue(s);
    assert ColumnName(Value(s)) == s;
  }

  /** Shorter first, then alphabetical: the order of spreadsheet columns. */
  predicate Before(s: string, t: string) {
    |s| < |t| || (|s| == |t| && Alphabetical(s, t))
  }

  predicate Alphabetical(s: string, t: string)
    requires |s| == |t|
  {
    s != "" && (s[0] < t[0] || (s[0] == t[0] && Alphabetical(s[1..], t[1..])))
  }

  /** How the last letter enters the alphabetical order. */
  lemma {:induction false} AlphabeticalByLast(s: string, t: string)
    requires |s| == |t| > 0
    ensures Alphabetical(s, t) <==>
              Alphabetical(s[..|s| - 1], t[..|t| - 1])
              || (s[..|s| - 1] == t[..|t| - 1] && s[|s| - 1] < t[|t| - 1])
  {
    var a, b := s[..|s| - 1], t[..|t| - 1];
    if |s| > 1 {
      AlphabeticalByLast(s[1..], t[1..]);
      assert s[1..][..|s| - 2] == a[1..] && t[1..][..|t| - 2] == b[1..];
      assert a == [a[0]] + a[1..] && b == [b[0]] + b[1..];
    } else {
      assert a == b == "";
    }
  }

  /** Names are strictly increasing, shorter names first. */
  lemma {:induction false} NamesIncrease(m: nat, n: nat)
    requires m < n
    ensures Before(ColumnName(m), ColumnName(n))
    decreases n
  {
    var s, t := ColumnName(m), ColumnName(n);
    if m == 0 {
      assert s == "" && t != "";
    } else {
      var p, q := (m - 1) / 26, (n - 1) / 26;
      var a, b := ColumnName(p), ColumnName(q);
      assert s == a + [Letter((m - 1) % 26)] && t == b + [Letter((n - 1) % 26)];
      if p < q {
        NamesIncrease(p, q);
      }
      if |a| == |b| {
        AlphabeticalByLast(s, t);
        assert s[..|s| - 1] == a && t[..|t| - 1] == b;
      }
    }
  }

  /** And so the order of the names is the order of the columns. */
  lemma OrderAgrees(m: nat, n: nat)
    ensures Before(ColumnName(m), ColumnName(n)) <==> m < n
  {
    if m < n {
      NamesIncrease(m, n);
    } else {
      if n < m { NamesIncrease(n, m); }
      NotBoth(ColumnName(m), ColumnName(n));
      NotBoth(ColumnName(m), ColumnName(m));
    }
  }

  lemma NotBoth(s: string, t: string)
    ensures !(Before(s, t) && Before(t, s))
  {
    if |s| == |t| { NotBothAlphabetical(s, t); }
  }

  lemma {:induction false} NotBothAlphabetical(s: string, t: string)
    requires |s| == |t|
    ensures !(Alphabetical(s, t) && Alphabetical(t, s))
  {
    if s != "" { NotBothAlphabetical(s[1..], t[1..]); }
  }
}
