/** The reader inverts the printer, whatever order each object's members are
    printed in; so canonical text is a faithful name for a JSON value. */
module JsonRoundTrip {
  import opened Base
  import opened Text
  import opened CanonicalJson
  import opened JsonReader

  /** Every number is carried by the text its float64 formats to. */
  ghost predicate Valid(v: Json, num: Reading) {
    match v
    case JNum(t) => IsNumber(t) && num(t) == Some(t)
    case JArr(es) => forall i | 0 <= i < |es| :: Valid(es[i], num)
    case JObj(m) => forall k | k in m :: Valid(m[k], num)
    case _ => true
  }

  // ----- strings -----

  lemma HexReads(n: nat)
    requires n < 16
    ensures HexValue(HexDigit(n)) == Some(n)
  {
    assert n == 0 || n == 1 || n == 2 || n == 3 || n == 4 || n == 5 || n == 6 || n == 7
        || n == 8 || n == 9 || n == 10 || n == 11 || n == 12 || n == 13 || n == 14 || n == 15;
  }

  /** A control or markup character, written as a \u00 escape, reads back. */
  lemma UnicodeEscapeReads(c: char, rest: string)
    requires c as int < 256
    ensures ReadEscape("u00" + [HexDigit(c as int / 16), HexDigit(c as int % 16)] + rest) == Some((c, rest))
  {
    var h, l := c as int / 16, c as int % 16;
    HexReads(h);
    HexReads(l);
    hide HexDigit;
    var s := "u00" + [HexDigit(h), HexDigit(l)] + rest;
    assert s[1..][0] == '0' && s[1..][1] == '0' && s[1..][2] == HexDigit(h) && s[1..][3] == HexDigit(l);
    assert ReadHex4(s[1..]) == Some(c as int);
    assert s[1..][4..] == rest;
  }

  lemma SeparatorReads(rest: string)
    ensures ReadEscape("u2028" + rest) == Some(('\U{2028}', rest))
    ensures ReadEscape("u2029" + rest) == Some(('\U{2029}', rest))
  {
    forall d | d == '8' || d == '9' ensures ReadHex4("202" + [d] + rest) == Some(0x2020 + (d as int - '0' as int)) {}
    assert ("u2028" + rest)[1..] == "202" + ['8'] + rest;
    assert ("u2029" + rest)[1..] == "202" + ['9'] + rest;
    assert ("202" + ['8'] + rest)[4..] == rest && ("202" + ['9'] + rest)[4..] == rest;
  }

  lemma ReadCharsEscape(e: string, c: char, tail: string)
    requires ReadEscape(e + tail) == Some((c, tail))
    ensures ReadChars("\\" + e + tail) == ConsChar(c, ReadChars(tail))
  {
    assert ("\\" + e + tail)[1..] == e + tail;
  }

  lemma ShortEscapeReads(e: char, c: char, tail: string)
    requires ReadEscape([e] + tail) == Some((c, tail))
    ensures ReadChars(['\\', e] + tail) == ConsChar(c, ReadChars(tail))
  {
    ReadCharsEscape([e], c, tail);
    assert "\\" + [e] + tail == ['\\', e] + tail;
  }

  predicate HasShort(c: char) {
    c == '"' || c == '\\' || c == '\U{0008}' || c == '\U{000C}' || c == '\n' || c == '\r' || c == '\t'
  }

  lemma ShortCharReads(c: char, tail: string)
    requires HasShort(c)
    ensures ReadChars(Escape(c) + tail) == ConsChar(c, ReadChars(tail))
  {
    var e := Escape(c)[1];
    assert ReadEscape([e] + tail) == Some((c, tail)) by {
      assert ([e] + tail)[0] == e && ([e] + tail)[1..] == tail;
      hide ReadUnicode;
    }
    hide ReadEscape, ReadChars;
    ShortEscapeReads(e, c, tail);
    assert Escape(c) == ['\\', e];
  }

  lemma UnicodeCharReads(c: char, tail: string)
    requires !HasShort(c) && (c < ' ' || c == '<' || c == '>' || c == '&')
    ensures ReadChars(Escape(c) + tail) == ConsChar(c, ReadChars(tail))
  {
    hide ReadEscape, ReadChars, HexDigit;
    UnicodeEscapeReads(c, tail);
    var e := "u00" + [HexDigit(c as int / 16), HexDigit(c as int % 16)];
    ReadCharsEscape(e, c, tail);
    assert Escape(c) == "\\" + e;
  }

  lemma CharReads(c: char, tail: string)
    ensures ReadChars(Escape(c) + tail) == ConsChar(c, ReadChars(tail))
  {
    hide ReadEscape;
    if HasShort(c) {
      ShortCharReads(c, tail);
    } else if c < ' ' || c == '<' || c == '>' || c == '&' {
      UnicodeCharReads(c, tail);
    } else if c == '\U{2028}' || c == '\U{2029}' {
      SeparatorReads(tail);
      var e := if c == '\U{2028}' then "u2028" else "u2029";
      ReadCharsEscape(e, c, tail);
      assert Escape(c) == "\\" + e;
    } else {
      assert Escape(c) == [c] && ([c] + tail)[0] == c && ([c] + tail)[1..] == tail;
    }
  }

  lemma {:induction false} CharsRead(t: string, rest: string)
    ensures ReadChars(Escapes(t) + "\"" + rest) == Some((t, rest))
  {
    hide Escape;
    if t == "" {
      assert "" + "\"" + rest == ['"'] + rest;
      assert (['"'] + rest)[1..] == rest;
    } else {
      CharsRead(t[1..], rest);
      var tail := Escapes(t[1..]) + "\"" + rest;
      CharReads(t[0], tail);
      assert Escapes(t) + "\"" + rest == Escape(t[0]) + tail;
      assert [t[0]] + t[1..] == t;
    }
  }

  predicate MarkupFree(s: string) {
    forall c | c in s :: Harmless(c)
  }

  /** Printed strings hold no control character, no markup character and no
      JavaScript line separator. */
  lemma {:induction false} EscapesAreMarkupFree(t: string)
    ensures MarkupFree(Escapes(t))
  {
    if t != "" {
      EscapesAreMarkupFree(t[1..]);
      EscapeIsMarkupFree(t[0]);
      hide Escape;
    }
  }

  predicate Harmless(c: char) {
    c >= ' ' && c != '<' && c != '>' && c != '&' && c != '\U{2028}' && c != '\U{2029}'
  }

  lemma HexIsHarmless(n: nat)
    requires n < 16
    ensures Harmless(HexDigit(n))
  {
  }

  lemma EscapeIsMarkupFree(c: char)
    ensures MarkupFree(Escape(c))
  {
    if c as int < 256 {
      HexIsHarmless(c as int / 16);
      HexIsHarmless(c as int % 16);
    }
    hide HexDigit;
    forall i | 0 <= i < |Escape(c)| ensures Harmless(Escape(c)[i]) {}
    assert forall d | d in Escape(c) :: Harmless(d);
  }

  // ----- numbers -----

  /** Of the escapes that read back, each character has a fixed one: two characters
      long where the grammar has such a one, else, for a control or markup character
      or line separator, \u and four lower-case digits; any other is itself. */
  lemma EscapeForm(c: char)
    ensures var e := Escape(c);
            && (HasShort(c) ==> |e| == 2 && e[0] == '\\')
            && (!HasShort(c) && !Harmless(c) ==>
                  && |e| == 6 && e[0] == '\\' && e[1] == 'u'
                  && forall i | 2 <= i < 6 :: '0' <= e[i] <= '9' || 'a' <= e[i] <= 'f')
            && (!HasShort(c) && Harmless(c) ==> e == [c])
  {
    if c < ' ' || c == '<' || c == '>' || c == '&' {
      LowerCaseDigit(c as int / 16);
      LowerCaseDigit(c as int % 16);
    }
    hide HexDigit;
  }

  lemma LowerCaseDigit(n: nat)
    requires n < 16
    ensures '0' <= HexDigit(n) <= '9' || 'a' <= HexDigit(n) <= 'f'
  {
  }

  lemma {:induction false} RunOf(s: string, rest: string)
    requires forall c | c in s :: IsNumberChar(c)
    requires rest == "" || !IsNumberChar(rest[0])
    ensures NumberRun(s + rest) == |s|
  {
    if s == "" {
      assert s + rest == rest;
    } else {
      assert s[0] in s && (s + rest)[1..] == s[1..] + rest;
      RunOf(s[1..], rest);
    }
  }

  lemma {:induction false} DigitsAreNumberChars(s: string)
    requires DigitRun(s) == |s|
    ensures forall c | c in s :: IsNumberChar(c)
  {
  }

  lemma ExponentChars(s: string)
    requires IsExponent(s)
    ensures forall c | c in s :: IsNumberChar(c)
  {
    if s != "" {
      var d := if IsDigits(s[1..]) then s[1..] else s[2..];
      DigitsAreNumberChars(d);
      assert s == s[..|s| - |d|] + d;
    }
  }

  lemma FractionChars(s: string)
    requires IsFraction(s)
    ensures forall c | c in s :: IsNumberChar(c)
  {
    if s != "" && s[0] == '.' {
      var n := DigitRun(s[1..]);
      ExponentChars(s[1 + n..]);
      assert s == ['.'] + s[1..][..n] + s[1 + n..];
    } else {
      ExponentChars(s);
    }
  }

  lemma NumberChars(s: string)
    requires IsNumber(s)
    ensures s != "" && (s[0] == '-' || IsDigit(s[0])) && forall c | c in s :: IsNumberChar(c)
  {
    hide IsFraction;
    var u := if s[0] == '-' then s[1..] else s;
    var n := if u[0] == '0' then 1 else DigitRun(u);
    FractionChars(u[n..]);
    assert u == u[..n] + u[n..];
    assert s == s[..|s| - |u|] + u;
  }

  // ----- values -----

  /** A number ends where its context makes it end; every other value ends by itself. */
  predicate Delimits(v: Json, rest: string) {
    !v.JNum? || rest == "" || !IsNumberChar(rest[0])
  }

  /** Printed text starts with the value itself. */
  lemma RenderingStarts(v: Json, s: string, num: Reading)
    requires Renders(v, s) && Valid(v, num)
    ensures s != "" && !IsBlank(s[0]) && s[0] != ']' && s[0] != '}'
  {
    if v.JNum? { NumberChars(v.digits); }
  }

  /** The reader inverts the printer, in whatever orders members were printed. */
  lemma Reads(v: Json, s: string, num: Reading, rest: string)
    requires Renders(v, s) && Valid(v, num) && Delimits(v, rest)
    ensures ReadValue(s + rest, num) == Some((v, rest))
    decreases v, 2, 0
  {
    match v
    case JNull => assert ("null" + rest)[4..] == rest;
    case JBool(b) =>
      var t := if b then "true" else "false";
      assert (t + rest)[|t|..] == rest && (t + rest)[0] == t[0];
    case JNum(t) => NumberReads(t, num, rest);
    case JStr(t) => StringReads(t, num, rest);
    case JArr(es) =>
      var parts :| ItemsRender(v, parts) && s == "[" + Join(parts, ",") + "]";
      ArrayReads(v, parts, num, rest);
    case JObj(m) =>
      var keys, texts :| MembersRender(v, keys, texts) && s == "{" + Join(NamedTexts(keys, texts), ",") + "}";
      ObjectReads(v, keys, texts, num, rest);
  }

  lemma OpensString(t: string, num: Reading)
    requires ReadChars(t).Some?
    ensures ReadValue("\"" + t, num) == Some((JStr(ReadChars(t).value.0), ReadChars(t).value.1))
  {
    hide ReadChars;
    assert ("\"" + t)[0] == '"' && ("\"" + t)[1..] == t;
  }

  lemma OpensArray(t: string, num: Reading)
    requires t != "" && SkipBlank(t) == t
    ensures t[0] == ']' ==> ReadValue("[" + t, num) == Some((JArr([]), t[1..]))
    ensures t[0] != ']' && ReadItems(t, num).Some? ==>
              ReadValue("[" + t, num) == Some((JArr(ReadItems(t, num).value.0), ReadItems(t, num).value.1))
  {
    hide ReadItems, SkipBlank;
    assert ("[" + t)[0] == '[' && ("[" + t)[1..] == t;
  }

  lemma OpensObject(t: string, num: Reading)
    requires t != "" && SkipBlank(t) == t
    ensures t[0] == '}' ==> ReadValue("{" + t, num) == Some((JObj(map[]), t[1..]))
    ensures t[0] != '}' && ReadMembers(t, num).Some? ==>
              ReadValue("{" + t, num) == Some((JObj(ReadMembers(t, num).value.0), ReadMembers(t, num).value.1))
  {
    hide ReadMembers, SkipBlank;
    assert ("{" + t)[0] == '{' && ("{" + t)[1..] == t;
  }

  lemma OpensNumber(s: string, num: Reading)
    requires s != "" && (s[0] == '-' || IsDigit(s[0]))
    ensures ReadValue(s, num) == ReadNumber(s, num)
  {
    hide ReadNumber;
    assert "null"[0] == 'n' && "true"[0] == 't' && "false"[0] == 'f';
  }

  lemma NumberReads(t: string, num: Reading, rest: string)
    requires IsNumber(t) && num(t) == Some(t) && (rest == "" || !IsNumberChar(rest[0]))
    ensures ReadValue(t + rest, num) == Some((JNum(t), rest))
  {
    NumberChars(t);
    RunOf(t, rest);
    assert (t + rest)[0] == t[0];
    OpensNumber(t + rest, num);
    hide IsNumber, ReadValue, NumberRun, IsNumberChar, IsDigit;
    assert (t + rest)[..|t|] == t && (t + rest)[|t|..] == rest;
  }

  lemma Around(a: string, b: string, c: string, d: string, e: string)
    ensures a + b + c + d + e == a + (b + c + (d + e))
  {
  }

  lemma QuoteThen(t: string, mark: string, rest: string)
    ensures Quote(t) + mark + rest == "\"" + (Escapes(t) + "\"" + (mark + rest))
  {
    hide Escapes;
    Around("\"", Escapes(t), "\"", mark, rest);
  }

  lemma StringReads(t: string, num: Reading, rest: string)
    ensures ReadValue(Quote(t) + rest, num) == Some((JStr(t), rest))
  {
    CharsRead(t, rest);
    OpensString(Escapes(t) + "\"" + rest, num);
    hide ReadChars, ReadValue;
    QuoteThen(t, "", rest);
    assert "" + rest == rest && Quote(t) + "" == Quote(t);
  }

  lemma SkipNothing(text: string, tail: string)
    requires text != "" && !IsBlank(text[0])
    ensures SkipBlank(text + tail) == text + tail && (text + tail)[0] == text[0]
  {
  }

  lemma LastItem(text: string, x: Json, num: Reading, rest: string)
    requires text != "" && !IsBlank(text[0])
    requires ReadValue(text + ("]" + rest), num) == Some((x, "]" + rest))
    ensures ReadItems(text + ("]" + rest), num) == Some(([x], rest))
  {
    SkipNothing(text, "]" + rest);
    SkipNothing("]", rest);
    hide SkipBlank, ReadValue, IsBlank;
    assert ("]" + rest)[1..] == rest;
  }

  lemma NextItem(text: string, x: Json, num: Reading, more: string)
    requires text != "" && !IsBlank(text[0])
    requires ReadValue(text + ("," + more), num) == Some((x, "," + more)) && ReadItems(more, num).Some?
    ensures ReadItems(text + ("," + more), num)
            == Some(([x] + ReadItems(more, num).value.0, ReadItems(more, num).value.1))
  {
    SkipNothing(text, "," + more);
    SkipNothing(",", more);
    hide SkipBlank, ReadValue, IsBlank;
    assert ("," + more)[1..] == more;
  }

  lemma JoinStep(parts: seq<string>, k: nat)
    requires k < |parts|
    ensures Join(parts[k..], ",") == if k + 1 == |parts| then parts[k] else parts[k] + ("," + Join(parts[k + 1..], ","))
  {
    assert parts[k..][0] == parts[k] && parts[k..][1..] == parts[k + 1..];
  }

  lemma Regroup(a: string, b: string, c: string, d: string)
    ensures a + (b + c) + d == a + (b + (c + d))
  {
  }

  lemma ItemsRead(v: Json, parts: seq<string>, num: Reading, k: nat, rest: string)
    requires Valid(v, num) && v.JArr? && ItemsRender(v, parts) && k < |parts|
    ensures ReadItems(Join(parts[k..], ",") + ("]" + rest), num) == Some((v.items[k..], rest))
    decreases v, 1, |parts| - k
  {
    hide Renders, ReadValue, ReadItems, Join, IsBlank;
    var x := v.items[k];
    JoinStep(parts, k);
    RenderingStarts(x, parts[k], num);
    if k + 1 == |v.items| {
      Reads(x, parts[k], num, "]" + rest);
      LastItem(parts[k], x, num, rest);
      assert v.items[k..] == [x];
    } else {
      ItemsRead(v, parts, num, k + 1, rest);
      var more := Join(parts[k + 1..], ",") + ("]" + rest);
      Reads(x, parts[k], num, "," + more);
      NextItem(parts[k], x, num, more);
      Regroup(parts[k], ",", Join(parts[k + 1..], ","), "]" + rest);
      assert v.items[k..] == [x] + v.items[k + 1..];
    }
  }

  lemma Unwrap(open: string, body: string, close: string, rest: string)
    requires |open| == 1
    ensures open + body + close + rest == open + (body + (close + rest))
    ensures (open + (body + (close + rest)))[1..] == body + (close + rest)
  {
  }

  lemma ArrayReads(v: Json, parts: seq<string>, num: Reading, rest: string)
    requires Valid(v, num) && v.JArr? && ItemsRender(v, parts)
    ensures ReadValue("[" + Join(parts, ",") + "]" + rest, num) == Some((v, rest))
    decreases v, 1, |parts| + 1
  {
    hide ReadItems, ReadValue, Valid, Renders;
    var body := Join(parts, ",");
    Unwrap("[", body, "]", rest);
    if v.items == [] {
      SkipNothing("]", rest);
      assert body + ("]" + rest) == "]" + rest && ("]" + rest)[1..] == rest;
      OpensArray("]" + rest, num);
    } else {
      ItemsRead(v, parts, num, 0, rest);
      assert parts[0..] == parts && v.items[0..] == v.items;
      BodyStarts(v, parts, num, "]" + rest);
      OpensArray(body + ("]" + rest), num);
    }
  }

  /** The first item's text leads, so no blank is skipped and the array is not empty. */
  lemma BodyStarts(v: Json, parts: seq<string>, num: Reading, tail: string)
    requires Valid(v, num) && v.JArr? && ItemsRender(v, parts) && v.items != []
    ensures var s := Join(parts, ",") + tail;
            SkipBlank(s) == s && s != "" && s[0] != ']'
  {
    hide Join, Renders, SkipBlank;
    JoinStep(parts, 0);
    assert parts[0..] == parts;
    RenderingStarts(v.items[0], parts[0], num);
    SkipNothing(Join(parts, ","), tail);
  }

  // ----- objects -----

  function Restrict(m: map<string, Json>, keys: seq<string>): map<string, Json> {
    map k | k in m && k in keys :: m[k]
  }

  lemma RestrictStep(m: map<string, Json>, keys: seq<string>, k: nat)
    requires k < |keys| && keys[k] in m
    ensures Restrict(m, keys[k..]) == map[keys[k] := m[keys[k]]] + Restrict(m, keys[k + 1..])
  {
    assert keys[k..] == [keys[k]] + keys[k + 1..];
  }

  lemma OpensName(t: string, key: string, text: string)
    requires ReadChars(t) == Some((key, ":" + text))
    ensures ReadName("\"" + t) == Some((key, text))
  {
    SkipNothing(":", text);
    hide ReadChars, SkipBlank;
    assert ("\"" + t)[0] == '"' && ("\"" + t)[1..] == t && (":" + text)[1..] == text;
  }

  lemma NameReads(key: string, text: string)
    ensures ReadName(SkipBlank(Quote(key) + ":" + text)) == Some((key, text))
  {
    CharsRead(key, ":" + text);
    SkipNothing(Quote(key) + ":", text);
    OpensName(Escapes(key) + "\"" + (":" + text), key, text);
    hide ReadChars, ReadName, SkipBlank, IsBlank, Escapes;
    QuoteThen(key, ":", text);
  }

  /** A member reads as its name, then its value. */
  lemma MemberReads(key: string, text: string, tail: string, num: Reading)
    requires text != "" && !IsBlank(text[0]) && ReadValue(text + tail, num).Some?
    ensures ReadName(SkipBlank(MemberText(key, text) + tail)) == Some((key, text + tail))
    ensures SkipBlank(text + tail) == text + tail
  {
    NameReads(key, text + tail);
    SkipNothing(text, tail);
    hide ReadName, Quote, SkipBlank, IsBlank, ReadValue;
    Around(Quote(key), "", ":", text, tail);
    assert MemberText(key, text) + tail == Quote(key) + ":" + (text + tail);
  }

  lemma LastMember(key: string, text: string, x: Json, num: Reading, rest: string)
    requires text != "" && !IsBlank(text[0])
    requires ReadValue(text + ("}" + rest), num) == Some((x, "}" + rest))
    ensures ReadMembers(MemberText(key, text) + ("}" + rest), num) == Some((map[key := x], rest))
  {
    MemberReads(key, text, "}" + rest, num);
    SkipNothing("}", rest);
    hide SkipBlank, ReadValue, IsBlank, MemberText, ReadName;
    assert ("}" + rest)[1..] == rest;
  }

  lemma NextMember(key: string, text: string, x: Json, num: Reading, more: string)
    requires text != "" && !IsBlank(text[0])
    requires ReadValue(text + ("," + more), num) == Some((x, "," + more)) && ReadMembers(more, num).Some?
    ensures ReadMembers(MemberText(key, text) + ("," + more), num)
            == Some((map[key := x] + ReadMembers(more, num).value.0, ReadMembers(more, num).value.1))
  {
    MemberReads(key, text, "," + more, num);
    SkipNothing(",", more);
    hide SkipBlank, ReadValue, IsBlank, MemberText, ReadName;
    assert ("," + more)[1..] == more;
  }

  lemma MembersRead(v: Json, keys: seq<string>, texts: seq<string>, num: Reading, k: nat, rest: string)
    requires Valid(v, num) && v.JObj? && MembersRender(v, keys, texts) && k < |keys|
    ensures ReadMembers(Join(NamedTexts(keys, texts)[k..], ",") + ("}" + rest), num) == Some((Restrict(v.members, keys[k..]), rest))
    decreases v, 1, |keys| - k
  {
    var parts := NamedTexts(keys, texts);
    var key, text := keys[k], texts[k];
    assert key in v.members && Renders(v.members[key], text) && parts[k] == MemberText(key, text);
    hide Renders, MembersRender, ReadValue, ReadMembers, Join, MemberText, Restrict, Enumerates, IsBlank;
    var x := v.members[key];
    JoinStep(parts, k);
    RenderingStarts(x, text, num);
    RestrictStep(v.members, keys, k);
    if k + 1 == |keys| {
      Reads(x, text, num, "}" + rest);
      LastMember(key, text, x, num, rest);
      RestrictNone(v.members, keys[k + 1..], map[key := x]);
    } else {
      MembersRead(v, keys, texts, num, k + 1, rest);
      var more := Join(parts[k + 1..], ",") + ("}" + rest);
      Reads(x, text, num, "," + more);
      NextMember(key, text, x, num, more);
      Regroup(parts[k], ",", Join(parts[k + 1..], ","), "}" + rest);
    }
  }

  lemma RestrictNone(m: map<string, Json>, keys: seq<string>, base: map<string, Json>)
    requires keys == []
    ensures base + Restrict(m, keys) == base
  {
  }

  lemma ObjectReads(v: Json, keys: seq<string>, texts: seq<string>, num: Reading, rest: string)
    requires Valid(v, num) && v.JObj? && MembersRender(v, keys, texts)
    ensures ReadValue("{" + Join(NamedTexts(keys, texts), ",") + "}" + rest, num) == Some((v, rest))
    decreases v, 1, |keys| + 1
  {
    hide ReadMembers, ReadValue, Valid, Enumerates, Renders;
    var parts := NamedTexts(keys, texts);
    var body := Join(parts, ",");
    Unwrap("{", body, "}", rest);
    if keys == [] {
      NoMembers(v.members, keys);
      SkipNothing("}", rest);
      assert body + ("}" + rest) == "}" + rest && ("}" + rest)[1..] == rest;
      OpensObject("}" + rest, num);
    } else {
      MembersRead(v, keys, texts, num, 0, rest);
      assert parts[0..] == parts && keys[0..] == keys;
      RestrictAll(v.members, keys);
      MembersStart(keys, texts, "}" + rest);
      OpensObject(body + ("}" + rest), num);
    }
  }

  lemma NoMembers(m: map<string, Json>, keys: seq<string>)
    requires Enumerates(keys, m) && keys == []
    ensures m == map[]
  {
    assert forall k :: k in m ==> k in keys;
  }

  lemma RestrictAll(m: map<string, Json>, keys: seq<string>)
    requires Enumerates(keys, m)
    ensures Restrict(m, keys) == m
  {
  }

  lemma MembersStart(keys: seq<string>, texts: seq<string>, tail: string)
    requires |keys| == |texts| && keys != []
    ensures var s := Join(NamedTexts(keys, texts), ",") + tail;
            SkipBlank(s) == s && s != "" && s[0] == '"'
  {
    hide Join, SkipBlank;
    var parts := NamedTexts(keys, texts);
    JoinStep(parts, 0);
    assert parts[0..] == parts && parts[0] != "" && parts[0][0] == '"';
    SkipNothing(Join(parts, ","), tail);
  }
}
