/** Logs as Append builds them: they verify, and they only grow. And what the
    encoding does not protect: where one text field ends and the next begins. */
module AuditGrowth {
  import opened Base
  import opened CanonicalJson
  import opened Canonicalizing
  import opened AuditChain
  import opened AuditProps

  // ----- what Append builds -----

  /** The log after a run of calls, some of which may have failed. */
  ghost function Play(p: Primitives, calls: seq<Call>): seq<LogRow> {
    if calls == [] then []
    else
      var log := Play(p, calls[..|calls| - 1]);
      match Appended(p, log, calls[|calls| - 1])
      case Ok(log') => log'
      case Err(_) => log
  }

  /** The row Append makes is linked to the log it was made for. */
  lemma NewRowLinks(p: Primitives, rows: seq<LogRow>, c: Call)
    requires Lawful(p) && NewRow(p, rows, c).Ok?
    ensures var row := NewRow(p, rows, c).value;
            row.id == NextId(rows) && Linked(p, row, Head(p, rows))
  {
    var row := NewRow(p, rows, c).value;
    assert EntryOf(row, c.details.value) == NewEntry(p, rows, c);
    assert |row.hash| == 32 by { hide NextId, Head; }
    assert CheckRow(p, row, Head(p, rows)) == Intact by { hide CanonicalForm, Encoding, NextId, Head, Steady, Linked; }
    hide *;
    RowIntact(p, row, Head(p, rows));
  }

  /** A row with the next id goes to the end. */
  lemma StoredAtEnd(rows: seq<LogRow>, row: LogRow)
    requires NumberedFrom1(rows) && |rows| < MAX_INT64 && row.id == NextId(rows)
    ensures Stored(rows, row) == Ok(rows + [row]) && NumberedFrom1(rows + [row])
  {
  }

  lemma AppendVerifies(p: Primitives, rows: seq<LogRow>, c: Call)
    requires Lawful(p) && Accepted(p, rows) && NumberedFrom1(rows) && |rows| < MAX_INT64
    requires Appended(p, rows, c).Ok?
    ensures var log := Appended(p, rows, c).value;
            && log == rows + [NewRow(p, rows, c).value]
            && NumberedFrom1(log) && Accepted(p, log)
  {
    hide NewRow, Linked, Lawful, Head, Accepted, Stored, NextId, NumberedFrom1;
    NewRowLinks(p, rows, c);
    var row := NewRow(p, rows, c).value;
    StoredAtEnd(rows, row);
    assert (rows + [row])[..|rows|] == rows;
    AcceptedSnoc(p, rows + [row]);
  }

  lemma EmptyLog(p: Primitives)
    ensures NumberedFrom1([]) && Accepted(p, [])
  {
  }

  /** Every log built by any run of Append calls, failed ones included, is
      numbered 1 to n and passes VerifyChain. */
  lemma {:induction false} AppendsVerify(p: Primitives, calls: seq<Call>)
    requires Lawful(p) && |calls| <= MAX_INT64
    ensures NumberedFrom1(Play(p, calls)) && Accepted(p, Play(p, calls)) && |Play(p, calls)| <= |calls|
  {
    hide Lawful, Steady, Accepted, NumberedFrom1, Appended, NewRow;
    EmptyLog(p);
    if calls != [] {
      var init, last := calls[..|calls| - 1], calls[|calls| - 1];
      AppendsVerify(p, init);
      if Appended(p, Play(p, init), last).Ok? { AppendVerifies(p, Play(p, init), last); }
    }
  }

  /** A run of appends never loses or changes a row already written. */
  lemma {:induction false} LogsOnlyGrow(p: Primitives, calls: seq<Call>, k: nat)
    requires Lawful(p) && k <= |calls| <= MAX_INT64
    ensures Play(p, calls[..k]) <= Play(p, calls)
  {
    hide Lawful, Steady, Accepted, NumberedFrom1, Appended, NewRow;
    if k == |calls| {
      assert calls[..k] == calls;
    } else {
      var init, last := calls[..|calls| - 1], calls[|calls| - 1];
      assert init[..k] == calls[..k];
      LogsOnlyGrow(p, init, k);
      AppendsVerify(p, init);
      if Appended(p, Play(p, init), last).Ok? { AppendVerifies(p, Play(p, init), last); }
    }
  }

  // ----- no separators -----

  /** Only the concatenation is protected: bytes moved from the end of the user to
      the front of the action leave the hash as it was. */
  lemma FieldsRunTogether(p: Primitives, e: Entry, user: Bytes, x: Bytes, action: Bytes)
    ensures HashOf(p, e.(user := user + x, action := action)) == HashOf(p, e.(user := user, action := x + action))
  {
    assert user + x + action == user + (x + action);
  }

  /** The lead byte tells how many bytes a character takes. */
  function Width(lead: Byte): nat {
    if lead < 0x80 then 1 else if lead < 0xE0 then 2 else if lead < 0xF0 then 3 else 4
  }

  function Bits(b: Byte): int {
    b as int - 0x80
  }

  function Decoded(b: Bytes): int {
    if |b| == 1 then b[0] as int
    else if |b| == 2 then (b[0] as int - 0xC0) * 64 + Bits(b[1])
    else if |b| == 3 then (b[0] as int - 0xE0) * 4096 + Bits(b[1]) * 64 + Bits(b[2])
    else if |b| == 4 then (b[0] as int - 0xF0) * 262144 + Bits(b[1]) * 4096 + Bits(b[2]) * 64 + Bits(b[3])
    else 0
  }

  lemma CharDecodes(c: char)
    ensures |Utf8Char(c)| == Width(Utf8Char(c)[0]) && Decoded(Utf8Char(c)) == c as int
  {
    var n := c as int;
    assert n == n / 64 * 64 + n % 64;
    assert n / 64 == n / 4096 * 64 + n / 64 % 64;
    assert n / 4096 == n / 262144 * 64 + n / 4096 % 64;
  }

  lemma Utf8CharPrefix(c: char, d: char, x: Bytes, y: Bytes)
    requires Utf8Char(c) + x == Utf8Char(d) + y
    ensures c == d && x == y
  {
    CharDecodes(c);
    CharDecodes(d);
    hide Utf8Char, Decoded, Width;
    var s, t := Utf8Char(c) + x, Utf8Char(d) + y;
    assert s[0] == Utf8Char(c)[0] && t[0] == Utf8Char(d)[0];
    var n := |Utf8Char(c)|;
    assert s[..n] == Utf8Char(c) && t[..n] == Utf8Char(d) && s[n..] == x && t[n..] == y;
  }

  lemma Utf8Step(s: string)
    requires s != ""
    ensures Utf8(s) == Utf8Char(s[0]) + Utf8(s[1..])
  {
    hide Utf8Char;
    assert CharBytes(s)[1..] == CharBytes(s[1..]);
  }

  lemma {:induction false} Utf8Injective(s: string, t: string)
    requires Utf8(s) == Utf8(t)
    ensures s == t
  {
    Utf8Length(s);
    Utf8Length(t);
    hide Utf8Char, Utf8;
    if s != "" && t != "" {
      Utf8Step(s);
      Utf8Step(t);
      Utf8CharPrefix(s[0], t[0], Utf8(s[1..]), Utf8(t[1..]));
      Utf8Injective(s[1..], t[1..]);
      assert s == [s[0]] + s[1..] && t == [t[0]] + t[1..];
    } else {
      EmptyUtf8();
    }
  }

  lemma EmptyUtf8()
    ensures Utf8("") == []
  {
  }

  /** Rows that agree and have the same user, action and resource have the same
      canonical details, and so the same JSON value (SameFormSameValue). */
  lemma AgreeingDetails(p: Primitives, a: LogRow, b: LogRow)
    requires Agree(p, a, b) && a.user == b.user && a.action == b.action && a.resource == b.resource
    ensures DetailsOf(p, a) == DetailsOf(p, b)
  {
    hide DetailsOf, Utf8;
    var t, u := DetailsOf(p, a).value, DetailsOf(p, b).value;
    var lead := a.user + a.action + a.resource;
    assert (lead + Utf8(t))[|lead|..] == Utf8(t) && (lead + Utf8(u))[|lead|..] == Utf8(u);
    Utf8Injective(t, u);
  }
}
