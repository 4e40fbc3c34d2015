/** The deterministic JSON form hashed by the audit log
    (internal/audit/hashchain.go). Text is a sequence of code points, as json
    sees valid UTF-8. The grammar is that of sections 2 to 7 of RFC 8259. */
module CanonicalJson {
  import opened Base
  import opened Text
  import Sorting

  /** A decoded value, as json.Unmarshal leaves it in an any. A float64 is
      carried by the text json.Marshal gives it. */
  datatype Json =
    | JNull
    | JBool(b: bool)
    | JNum(digits: string)
    | JStr(text: string)
    | JArr(items: seq<Json>)
    | JObj(members: map<string, Json>)

  // ----- numbers -----

  predicate IsDigit(c: char) {
    '0' <= c <= '9'
  }

  predicate IsNumberChar(c: char) {
    IsDigit(c) || c == '-' || c == '+' || c == '.' || c == 'e' || c == 'E'
  }

  function DigitRun(s: string): (n: nat)
    ensures n <= |s| && forall i | 0 <= i < n :: IsDigit(s[i])
  {
    if s == "" || !IsDigit(s[0]) then 0 else 1 + DigitRun(s[1..])
  }

  predicate IsDigits(s: string) {
    s != "" && DigitRun(s) == |s|
  }

  predicate IsExponent(s: string) {
    s == ""
    || ((s[0] == 'e' || s[0] == 'E')
        && (IsDigits(s[1..]) || (|s| > 1 && (s[1] == '+' || s[1] == '-') && IsDigits(s[2..]))))
  }

  predicate IsFraction(s: string) {
    if s != "" && s[0] == '.' then var n := DigitRun(s[1..]); n > 0 && IsExponent(s[1 + n..])
    else IsExponent(s)
  }

  predicate IsUnsigned(s: string) {
    s != "" && IsDigit(s[0]) && IsFraction(s[if s[0] == '0' then 1 else DigitRun(s)..])
  }

  /** number = [ minus ] int [ frac ] [ exp ] */
  predicate IsNumber(s: string) {
    IsUnsigned(if s != "" && s[0] == '-' then s[1..] else s)
  }

  /** Reading a number's text as a float64 and formatting it again; None when
      it is out of range. */
  type Reading = string -> Option<string>

  /** The text a float64 formats to is a number that reads as the same float64. */
  ghost predicate Steady(num: Reading) {
    forall t :: num(t).Some? ==> IsNumber(num(t).value) && num(num(t).value) == num(t)
  }

  // ----- strings -----

  function HexDigit(n: nat): char
    requires n < 16
  {
    "0123456789abcdef"[n]
  }

  /** json.Marshal's form of one character of a string. */
  function Escape(c: char): string {
    if c == '"' then "\\\""
    else if c == '\\' then "\\\\"
    else if c == '\U{0008}' then "\\b"
    else if c == '\U{000C}' then "\\f"
    else if c == '\n' then "\\n"
    else if c == '\r' then "\\r"
    else if c == '\t' then "\\t"
    else if c < ' ' || c == '<' || c == '>' || c == '&' then
      "\\u00" + [HexDigit(c as int / 16), HexDigit(c as int % 16)]
    else if c == '\U{2028}' then "\\u2028"
    else if c == '\U{2029}' then "\\u2029"
    else [c]
  }

  function Escapes(s: string): string {
    if s == "" then "" else Escape(s[0]) + Escapes(s[1..])
  }

  function Quote(s: string): string {
    "\"" + Escapes(s) + "\""
  }

  // ----- printing -----

  function MemberText(key: string, valueText: string): string {
    Quote(key) + ":" + valueText
  }

  ghost predicate Enumerates(keys: seq<string>, m: map<string, Json>) {
    && (forall k :: k in keys <==> k in m)
    && (forall i, j | 0 <= i < j < |keys| :: keys[i] != keys[j])
  }

  /** Named members, each with the text of its value. */
  function NamedTexts(keys: seq<string>, texts: seq<string>): (r: seq<string>)
    requires |keys| == |texts|
  {
    seq(|keys|, i requires 0 <= i < |keys| => MemberText(keys[i], texts[i]))
  }

  /** The text is the value printed, each object's members in any order, chosen
      afresh wherever an object occurs. */
  ghost predicate Renders(v: Json, s: string)
    decreases v, 1
  {
    match v
    case JNull => s == "null"
    case JBool(b) => s == if b then "true" else "false"
    case JNum(t) => s == t
    case JStr(t) => s == Quote(t)
    case JArr(_) => exists parts :: ItemsRender(v, parts) && s == "[" + Join(parts, ",") + "]"
    case JObj(_) => exists keys, texts :: MembersRender(v, keys, texts) && s == "{" + Join(NamedTexts(keys, texts), ",") + "}"
  }

  ghost predicate ItemsRender(v: Json, parts: seq<string>)
    requires v.JArr?
    decreases v, 0
  {
    |parts| == |v.items| && forall i | 0 <= i < |parts| :: Renders(v.items[i], parts[i])
  }

  ghost predicate MembersRender(v: Json, keys: seq<string>, texts: seq<string>)
    requires v.JObj?
    ensures MembersRender(v, keys, texts) ==> |keys| == |texts|
    decreases v, 0
  {
    && Enumerates(keys, v.members) && |texts| == |keys|
    && forall i | 0 <= i < |keys| :: keys[i] in v.members && Renders(v.members[keys[i]], texts[i])
  }

  // ----- the canonical order -----

  /** The order writeCanonical puts an object's members in. */
  ghost function ByKey(v: Json): seq<string>
    requires v.JObj?
  {
    Sorting.Sorted(v.members.Keys)
  }

  lemma ByKeyEnumerates(v: Json)
    requires v.JObj?
    ensures Enumerates(ByKey(v), v.members)
  {
    Sorting.SortedIsAscending(v.members.Keys);
  }

  /** The canonical text of a value. */
  ghost function Canonical(v: Json): string
    decreases v, 1
  {
    match v
    case JNull => "null"
    case JBool(b) => if b then "true" else "false"
    case JNum(t) => t
    case JStr(t) => Quote(t)
    case JArr(_) => "[" + Join(ItemTexts(v), ",") + "]"
    case JObj(_) => "{" + Join(NamedTexts(ByKey(v), MemberTexts(v)), ",") + "}"
  }

  ghost function ItemTexts(v: Json): (r: seq<string>)
    requires v.JArr?
    decreases v, 0
  {
    seq(|v.items|, i requires 0 <= i < |v.items| => Canonical(v.items[i]))
  }

  ghost function MemberTexts(v: Json): (r: seq<string>)
    requires v.JObj?
    ensures |r| == |ByKey(v)|
    decreases v, 0
  {
    ByKeyEnumerates(v);
    var keys := ByKey(v);
    assert forall i | 0 <= i < |keys| :: keys[i] in keys;
    seq(|keys|, i requires 0 <= i < |keys| => Canonical(v.members[keys[i]]))
  }

  lemma CanonicalRenders(v: Json)
    ensures Renders(v, Canonical(v))
    decreases v
  {
    match v {
      case JArr(es) =>
        forall i | 0 <= i < |es| ensures Renders(es[i], ItemTexts(v)[i]) { CanonicalRenders(es[i]); }
        assert ItemsRender(v, ItemTexts(v));
      case JObj(m) =>
        ByKeyEnumerates(v);
        var keys := ByKey(v);
        forall i | 0 <= i < |keys| ensures keys[i] in m && Renders(m[keys[i]], MemberTexts(v)[i]) {
          assert keys[i] in keys;
          CanonicalRenders(m[keys[i]]);
        }
        assert MembersRender(v, keys, MemberTexts(v));
      case _ =>
    }
  }
}
