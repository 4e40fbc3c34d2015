/** Character-sequence helpers: substring search, joining, and the byte-wise
    string order that Go's sort.Strings uses. */
module Text {
  /** strings.Contains(s, t). */
  predicate Contains(s: string, t: string)
    decreases |s|
  {
    t <= s || (s != "" && Contains(s[1..], t))
  }

  /** strings.Join(parts, sep). */
  function Join(parts: seq<string>, sep: string): string {
    if parts == [] then ""
    else if |parts| == 1 then parts[0]
    else parts[0] + sep + Join(parts[1..], sep)
  }

  lemma {:induction false} JoinSnoc(parts: seq<string>, last: string, sep: string)
    ensures Join(parts + [last], sep) ==
            if parts == [] then last else Join(parts, sep) + sep + last
  {
    if |parts| > 1 {
      assert (parts + [last])[1..] == parts[1..] + [last];
      JoinSnoc(parts[1..], last, sep);
    } else if |parts| == 1 {
      assert (parts + [last])[1..] == [last];
    }
  }

  /** An occurrence can be named by its position. */
  lemma {:induction false} ContainsAt(s: string, t: string, i: nat)
    requires i <= |s|
    requires t <= s[i..]
    ensures Contains(s, t)
  {
    if i > 0 {
      assert s[1..][i - 1..] == s[i..];
      ContainsAt(s[1..], t, i - 1);
    }
  }

  lemma {:induction false} ContainsWhere(s: string, t: string) returns (i: nat)
    requires Contains(s, t)
    ensures i <= |s| && t <= s[i..]
  {
    if t <= s {
      i := 0;
      assert s[0..] == s;
    } else {
      var j := ContainsWhere(s[1..], t);
      i := j + 1;
      assert s[1..][j..] == s[i..];
    }
  }

  lemma ContainsConcat(a: string, t: string, b: string)
    ensures Contains(a + t + b, t)
  {
    assert (a + t + b)[|a|..] == t + b;
    ContainsAt(a + t + b, t, |a|);
  }
}
