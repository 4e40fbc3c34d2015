/** The audit log, field by field: where each field of an entry lies in the bytes
    hashed, what Append writes, what VerifyChain says of a row, and that a single
    changed field is always caught. */
module AuditFields {
  import opened Canonicalizing
  import opened AuditChain
  import opened AuditProps
  import opened AuditGrowth

  // ----- the bytes of an entry -----

  /** The number these bytes spell, most significant first. */
  function Spelled(b: Bytes): nat {
    if b == [] then 0 else b[0] as nat * Pow256(|b| - 1) + Spelled(b[1..])
  }

  lemma {:induction false} SpelledSnoc(b: Bytes, last: Byte)
    ensures Spelled(b + [last]) == 256 * Spelled(b) + last as nat
  {
    if b == [] {
      assert [last][1..] == [];
    } else {
      SpelledSnoc(b[1..], last);
      assert (b + [last])[1..] == b[1..] + [last];
    }
  }

  lemma {:induction false} BigEndianSpells(n: nat, k: nat)
    requires n < Pow256(k)
    ensures Spelled(BigEndian(n, k)) == n
  {
    if k > 0 {
      BigEndianSpells(n / 256, k - 1);
      SpelledSnoc(BigEndian(n / 256, k - 1), (n % 256) as Byte);
    }
  }

  /** Two's complement. */
  function Signed(n: nat): int {
    if n > MAX_INT64 then n - 0x1_0000_0000_0000_0000 else n
  }

  lemma IntSpelled(x: Int64)
    ensures Signed(Spelled(BigEndian(Unsigned(x), 8))) == x
  {
    PowEight();
    hide BigEndian, Spelled, Pow256;
    BigEndianSpells(Unsigned(x), 8);
  }

  lemma PowEight()
    ensures Pow256(8) == 0x1_0000_0000_0000_0000
  {
    assert Pow256(2) == 0x1_0000 && Pow256(4) == 0x1_0000_0000 && Pow256(6) == 0x1_0000_0000_0000;
  }

  /** The bytes hashed are the id and the time as eight bytes each, in two's
      complement with the most significant first, the four text fields run
      together, and the previous hash. */
  lemma Layout(e: Entry, details: string)
    ensures var b, n := Encoding(e, details), |e.prev|;
            && |b| == 16 + |e.user| + |e.action| + |e.resource| + |Utf8(details)| + n
            && Signed(Spelled(b[..8])) == e.id && Signed(Spelled(b[8..16])) == e.ts
            && b[16..|b| - n] == e.user + e.action + e.resource + Utf8(details)
            && b[|b| - n..] == e.prev
  {
    IntSpelled(e.id);
    IntSpelled(e.ts);
    hide BigEndian, Utf8, Spelled;
    var b, c := Encoding(e, details), Content(e, details);
    var x, y := BigEndian(Unsigned(e.id), 8), BigEndian(Unsigned(e.ts), 8);
    assert b[..8] == x && b[8..16] == y && b[16..16 + |c|] == c && b[16 + |c|..] == e.prev;
  }

  // ----- one field changed -----

  ghost function Differences(p: Primitives, a: LogRow, b: LogRow): nat {
    (if a.id == b.id then 0 else 1) + (if a.ts == b.ts then 0 else 1)
    + (if a.user == b.user then 0 else 1) + (if a.action == b.action then 0 else 1)
    + (if a.resource == b.resource then 0 else 1) + (if DetailsOf(p, a) == DetailsOf(p, b) then 0 else 1)
  }

  /** A row that differs from an accepted one in just one of id, time, user,
      action, resource and canonical details, under the same entry hash, is always
      rejected, whatever else was changed. */
  lemma OneFieldIsCaught(p: Primitives, a: seq<LogRow>, b: seq<LogRow>, i: nat, hashed: set<Bytes>)
    requires Accepted(p, a) && i < |a| && i < |b| && b[i].hash == a[i].hash && Differences(p, a[i], b[i]) == 1
    requires NoCollision(p, hashed) && Covers(hashed, p, a) && Covers(hashed, p, b)
    ensures !Accepted(p, b)
  {
    hide Accepted, NoCollision, Covers, DetailsOf, Utf8;
    if Agree(p, a[i], b[i]) {
      AgreeingDiffer(p, a[i], b[i]);
    } else {
      TamperingIsCaught(p, a, b, i, hashed);
    }
  }

  lemma AgreeingDiffer(p: Primitives, a: LogRow, b: LogRow)
    requires Agree(p, a, b)
    ensures Differences(p, a, b) != 1
  {
    hide DetailsOf, Utf8;
    var t, u := DetailsOf(p, a).value, DetailsOf(p, b).value;
    ThreeOfFour(a.user, a.action, a.resource, Utf8(t), b.user, b.action, b.resource, Utf8(u));
    if Utf8(t) == Utf8(u) { Utf8Injective(t, u); }
  }

  /** Equal concatenations with three equal parts have the fourth equal. */
  lemma ThreeOfFour(a: Bytes, b: Bytes, c: Bytes, d: Bytes, a': Bytes, b': Bytes, c': Bytes, d': Bytes)
    requires a + b + c + d == a' + b' + c' + d'
    ensures b == b' && c == c' && d == d' ==> a == a'
    ensures a == a' && c == c' && d == d' ==> b == b'
    ensures a == a' && b == b' && d == d' ==> c == c'
    ensures a == a' && b == b' && c == c' ==> d == d'
  {
    var x, y := a + b + c + d, a' + b' + c' + d';
    assert |x| == |y|;
    if |a| == |a'| && |b| == |b'| && |c| == |c'| {
      var k, l, m := |a|, |a| + |b|, |a| + |b| + |c|;
      assert x[..k] == a && y[..k] == a';
      assert x[k..l] == b && y[k..l] == b';
      assert x[l..m] == c && y[l..m] == c';
      assert x[m..] == d && y[m..] == d';
    }
  }

  // ----- what Append writes -----

  /** Append succeeds exactly when the details are JSON and nothing fails; then the
      one new row says what the call said, and its details open again. */
  lemma AppendRecords(p: Primitives, rows: seq<LogRow>, c: Call)
    requires Lawful(p) && Accepted(p, rows) && NumberedFrom1(rows) && |rows| < MAX_INT64
    ensures Appended(p, rows, c).Ok? <==>
              c.details.Some? && c.fault == NoFault && CanonicalForm(c.details.value, p.num).Ok?
    ensures Appended(p, rows, c).Ok? ==>
              var log := Appended(p, rows, c).value;
              && |log| == |rows| + 1 && log[..|rows|] == rows
              && var row := log[|rows|];
                 && row.id == |log| && row.ts == c.now && row.user == c.user && row.action == c.action && row.resource == c.resource
                 && row.prev == Head(p, rows) && row.hash == Head(p, log)
                 && p.unseal(row.id, row.nonce, row.sealed) == c.details
  {
    HeadLength(p, rows);
    RowRecords(p, rows, c);
    hide NewRow, CanonicalForm, Accepted, Lawful;
    if NewRow(p, rows, c).Ok? { StoredAtEnd(rows, NewRow(p, rows, c).value); }
  }

  lemma RowRecords(p: Primitives, rows: seq<LogRow>, c: Call)
    requires Lawful(p) && NumberedFrom1(rows) && |rows| < MAX_INT64 && |Head(p, rows)| == 32
    ensures NewRow(p, rows, c).Ok? <==>
              && c.details.Some? && (c.fault == NoFault || c.fault == InsertFails || c.fault == CommitFails)
              && CanonicalForm(c.details.value, p.num).Ok?
    ensures NewRow(p, rows, c).Ok? ==>
              var row := NewRow(p, rows, c).value;
              && row.id == |rows| + 1 == NextId(rows) && row.ts == c.now
              && row.user == c.user && row.action == c.action && row.resource == c.resource
              && row.prev == Head(p, rows) && p.unseal(row.id, row.nonce, row.sealed) == c.details
  {
    hide CanonicalForm, Encoding, Head;
  }

  lemma HeadLength(p: Primitives, rows: seq<LogRow>)
    requires Lawful(p) && Accepted(p, rows)
    ensures |Head(p, rows)| == 32
  {
    if rows != [] { LastRow(p, rows); }
    hide Accepted;
  }

  // ----- what VerifyChain says -----

  /** The verdict on a row, by cause, in the order the causes are looked for. */
  lemma VerdictOnRow(p: Primitives, row: LogRow, expected: Bytes)
    ensures var v, raw := CheckRow(p, row, expected), p.unseal(row.id, row.nonce, row.sealed);
            var sized := |row.prev| == 32 && |row.hash| == 32;
            && (v == MalformedHashes(row.id) <==> !sized)
            && (v == PrevMismatch(row.id) <==> sized && row.prev != expected)
            && (v == Undecryptable(row.id) <==> sized && row.prev == expected && raw.None?)
            && (v == DetailsMalformed(row.id) <==>
                sized && row.prev == expected && raw.Some? && CanonicalForm(raw.value, p.num).Err?)
            && (v == HashMismatch(row.id) <==>
                sized && row.prev == expected && DetailsOf(p, row).Some? && p.sha(InputOf(p, row)) != row.hash)
            && (v == Intact <==> Linked(p, row, expected))
  {
    RowIntact(p, row, expected);
    hide CanonicalForm, BigEndian, Utf8;
  }
}
