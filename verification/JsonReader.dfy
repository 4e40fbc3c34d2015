/** Reading JSON text as json.Unmarshal does into an any: sections 2 to 7 of
    RFC 8259, the last of several members with one name wins, an unpaired
    surrogate escape reads as U+FFFD. Nothing in it refers to the printer. */
module JsonReader {
  import opened Base
  import opened CanonicalJson

  predicate IsBlank(c: char) {
    c == ' ' || c == '\n' || c == '\r' || c == '\t'
  }

  function SkipBlank(s: string): (r: string)
    ensures |r| <= |s|
  {
    if s != "" && IsBlank(s[0]) then SkipBlank(s[1..]) else s
  }

  function NumberRun(s: string): (n: nat)
    ensures n <= |s|
  {
    if s == "" || !IsNumberChar(s[0]) then 0 else 1 + NumberRun(s[1..])
  }

  function HexValue(c: char): (r: Option<nat>)
    ensures r.Some? ==> r.value < 16
  {
    if '0' <= c <= '9' then Some(c as int - '0' as int)
    else if 'a' <= c <= 'f' then Some(c as int - 'a' as int + 10)
    else if 'A' <= c <= 'F' then Some(c as int - 'A' as int + 10)
    else None
  }

  function ReadHex4(s: string): (r: Option<nat>)
    ensures r.Some? ==> r.value < 0x1_0000 && |s| >= 4
  {
    if |s| < 4 then None
    else
      match (HexValue(s[0]), HexValue(s[1]), HexValue(s[2]), HexValue(s[3]))
      case (Some(a), Some(b), Some(c), Some(d)) => Some(4096 * a + 256 * b + 16 * c + d)
      case _ => None
  }

  /** The rest of a \u escape. */
  function ReadUnicode(s: string): (r: Option<(char, string)>)
    ensures r.Some? ==> |r.value.1| < |s|
  {
    match ReadHex4(s)
    case None => None
    case Some(n) =>
      if n < 0xD800 || 0xE000 <= n then Some((n as char, s[4..]))
      else if |s| >= 6 && s[4..6] == "\\u" then
        match ReadHex4(s[6..])
        case Some(m) =>
          if n < 0xDC00 <= m < 0xE000
          then Some(((0x1_0000 + (n - 0xD800) * 0x400 + (m - 0xDC00)) as char, s[10..]))
          else Some(('\U{FFFD}', s[4..]))
        case None => Some(('\U{FFFD}', s[4..]))
      else Some(('\U{FFFD}', s[4..]))
  }

  /** The rest of an escape, after its backslash. */
  function ReadEscape(s: string): (r: Option<(char, string)>)
    ensures r.Some? ==> |r.value.1| < |s|
  {
    if s == "" then None
    else
      match s[0]
      case '"' => Some(('"', s[1..]))
      case '\\' => Some(('\\', s[1..]))
      case '/' => Some(('/', s[1..]))
      case 'b' => Some(('\U{0008}', s[1..]))
      case 'f' => Some(('\U{000C}', s[1..]))
      case 'n' => Some(('\n', s[1..]))
      case 'r' => Some(('\r', s[1..]))
      case 't' => Some(('\t', s[1..]))
      case 'u' => ReadUnicode(s[1..])
      case _ => None
  }

  function ConsChar(c: char, r: Option<(string, string)>): Option<(string, string)> {
    match r
    case None => None
    case Some(p) => Some(([c] + p.0, p.1))
  }

  /** The rest of a string, after its opening quote. */
  function ReadChars(s: string): (r: Option<(string, string)>)
    ensures r.Some? ==> |r.value.1| < |s|
    decreases |s|
  {
    if s == "" || s[0] < ' ' then None
    else if s[0] == '"' then Some(("", s[1..]))
    else if s[0] == '\\' then
      match ReadEscape(s[1..])
      case None => None
      case Some(p) => ConsChar(p.0, ReadChars(p.1))
    else ConsChar(s[0], ReadChars(s[1..]))
  }

  function ReadNumber(s: string, num: Reading): (r: Option<(Json, string)>)
    ensures r.Some? ==> |r.value.1| < |s|
  {
    var n := NumberRun(s);
    if n == 0 || !IsNumber(s[..n]) then None
    else
      match num(s[..n])
      case None => None
      case Some(t) => Some((JNum(t), s[n..]))
  }

  /** One value, with no blanks before it. */
  function ReadValue(s: string, num: Reading): (r: Option<(Json, string)>)
    ensures r.Some? ==> |r.value.1| < |s|
    decreases |s|, 0
  {
    if "null" <= s then Some((JNull, s[4..]))
    else if "true" <= s then Some((JBool(true), s[4..]))
    else if "false" <= s then Some((JBool(false), s[5..]))
    else if s == "" then None
    else if s[0] == '"' then
      match ReadChars(s[1..])
      case None => None
      case Some(p) => Some((JStr(p.0), p.1))
    else if s[0] == '[' then
      var t := SkipBlank(s[1..]);
      if t != "" && t[0] == ']' then Some((JArr([]), t[1..]))
      else
        match ReadItems(t, num)
        case None => None
        case Some(p) => Some((JArr(p.0), p.1))
    else if s[0] == '{' then
      var t := SkipBlank(s[1..]);
      if t != "" && t[0] == '}' then Some((JObj(map[]), t[1..]))
      else
        match ReadMembers(t, num)
        case None => None
        case Some(p) => Some((JObj(p.0), p.1))
    else ReadNumber(s, num)
  }

  /** The items of an array, from one to the closing bracket. */
  function ReadItems(s: string, num: Reading): (r: Option<(seq<Json>, string)>)
    ensures r.Some? ==> |r.value.1| < |s|
    decreases |s|, 1
  {
    match ReadValue(SkipBlank(s), num)
    case None => None
    case Some(p) =>
      var t := SkipBlank(p.1);
      if t == "" then None
      else if t[0] == ']' then Some(([p.0], t[1..]))
      else if t[0] != ',' then None
      else
        match ReadItems(t[1..], num)
        case None => None
        case Some(q) => Some(([p.0] + q.0, q.1))
  }

  /** The members of an object, from one to the closing brace. */
  function ReadMembers(s: string, num: Reading): (r: Option<(map<string, Json>, string)>)
    ensures r.Some? ==> |r.value.1| < |s|
    decreases |s|, 1
  {
    match ReadName(SkipBlank(s))
    case None => None
    case Some(k) =>
      match ReadValue(SkipBlank(k.1), num)
      case None => None
      case Some(p) =>
        var t := SkipBlank(p.1);
        if t == "" then None
        else if t[0] == '}' then Some((map[k.0 := p.0], t[1..]))
        else if t[0] != ',' then None
        else
          match ReadMembers(t[1..], num)
          case None => None
          case Some(q) => Some((map[k.0 := p.0] + q.0, q.1))
  }

  /** A member's name and its colon. */
  function ReadName(s: string): (r: Option<(string, string)>)
    ensures r.Some? ==> |r.value.1| < |s|
  {
    if s == "" || s[0] != '"' then None
    else
      match ReadChars(s[1..])
      case None => None
      case Some(p) =>
        var t := SkipBlank(p.1);
        if t != "" && t[0] == ':' then Some((p.0, t[1..])) else None
  }

  /** json.Unmarshal: the whole text is one value. */
  function Unmarshal(s: string, num: Reading): Option<Json> {
    match ReadValue(SkipBlank(s), num)
    case None => None
    case Some(p) => if SkipBlank(p.1) == "" then Some(p.0) else None
  }
}
