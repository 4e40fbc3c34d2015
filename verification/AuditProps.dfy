/** What the audit chain guarantees: the head hash determines the log, and a
    changed row is always caught. SHA-256 is assumed free of collisions only
    among the byte strings actually hashed. */
module AuditProps {
  import opened Base
  import opened CanonicalJson
  import opened JsonReader
  import opened Canonicalizing
  import opened AuditChain

  // ----- the encoding -----

  function Pow256(k: nat): nat {
    if k == 0 then 1 else 256 * Pow256(k - 1)
  }

  lemma {:induction false} BigEndianInjective(n: nat, m: nat, k: nat)
    requires n < Pow256(k) && m < Pow256(k) && BigEndian(n, k) == BigEndian(m, k)
    ensures n == m
  {
    if k > 0 {
      var a, b := BigEndian(n / 256, k - 1), BigEndian(m / 256, k - 1);
      assert BigEndian(n, k)[k - 1] as int == n % 256 && BigEndian(m, k)[k - 1] as int == m % 256;
      assert BigEndian(n, k)[..k - 1] == a && BigEndian(m, k)[..k - 1] == b;
      BigEndianInjective(n / 256, m / 256, k - 1);
    }
  }

  lemma Int64Injective(x: Int64, y: Int64)
    requires BigEndian(Unsigned(x), 8) == BigEndian(Unsigned(y), 8)
    ensures x == y
  {
    assert Pow256(8) == 0x1_0000_0000_0000_0000 by {
      assert Pow256(2) == 0x1_0000 && Pow256(4) == 0x1_0000_0000 && Pow256(6) == 0x1_0000_0000_0000;
    }
    hide BigEndian, Pow256;
    BigEndianInjective(Unsigned(x), Unsigned(y), 8);
  }

  /** A row's canonical details, when they can be unsealed and decoded. */
  ghost function DetailsOf(p: Primitives, row: LogRow): Option<string> {
    match p.unseal(row.id, row.nonce, row.sealed)
    case None => None
    case Some(raw) =>
      match CanonicalForm(raw, p.num)
      case Err(_) => None
      case Ok(t) => Some(t)
  }

  /** What the row says, field after field with nothing between them. */
  ghost function ContentOf(p: Primitives, row: LogRow): Bytes
    requires DetailsOf(p, row).Some?
  {
    row.user + row.action + row.resource + Utf8(DetailsOf(p, row).value)
  }

  /** The bytes hashed for a row. */
  ghost function InputOf(p: Primitives, row: LogRow): Bytes
    requires DetailsOf(p, row).Some?
  {
    BigEndian(Unsigned(row.id), 8) + BigEndian(Unsigned(row.ts), 8) + ContentOf(p, row) + row.prev
  }

  /** A row that can be read, links to what came before and has the hash of its
      own bytes. */
  ghost predicate Linked(p: Primitives, row: LogRow, expected: Bytes) {
    && |row.prev| == 32 && |row.hash| == 32 && row.prev == expected
    && DetailsOf(p, row).Some? && p.sha(InputOf(p, row)) == row.hash
  }

  lemma RowIntact(p: Primitives, row: LogRow, expected: Bytes)
    ensures CheckRow(p, row, expected) == Intact <==> Linked(p, row, expected)
  {
    hide CanonicalForm, BigEndian, Utf8;
  }

  ghost predicate LinkedAt(p: Primitives, rows: seq<LogRow>, i: nat)
    requires i < |rows|
  {
    Linked(p, rows[i], Head(p, rows[..i]))
  }

  /** Every row is linked to the rows before it. */
  ghost predicate Accepted(p: Primitives, rows: seq<LogRow>) {
    forall i | 0 <= i < |rows| :: LinkedAt(p, rows, i)
  }

  /** VerifyChain finds nothing wrong exactly when every row is linked. */
  lemma {:induction false} AcceptedIff(p: Primitives, rows: seq<LogRow>)
    ensures Check(p, rows) == Intact <==> Accepted(p, rows)
  {
    if rows != [] {
      var n := |rows| - 1;
      AcceptedIff(p, rows[..n]);
      RowIntact(p, rows[n], Head(p, rows[..n]));
      AcceptedSnoc(p, rows);
      hide CheckRow, Head, Linked, Accepted;
    }
  }

  lemma AcceptedSnoc(p: Primitives, rows: seq<LogRow>)
    requires rows != []
    ensures var n := |rows| - 1;
            Accepted(p, rows) <==> Accepted(p, rows[..n]) && Linked(p, rows[n], Head(p, rows[..n]))
  {
    hide Head, Linked;
    var n := |rows| - 1;
    forall i | 0 <= i < n ensures LinkedAt(p, rows[..n], i) == LinkedAt(p, rows, i) {
      assert rows[..n][..i] == rows[..i];
    }
    assert LinkedAt(p, rows, n) == Linked(p, rows[n], Head(p, rows[..n]));
  }

  /** What VerifyChain reports is its first violation: some row fails so, and all
      rows before it were accepted. */
  lemma {:induction false} ReportsTheFirst(p: Primitives, rows: seq<LogRow>) returns (i: nat)
    requires Check(p, rows) != Intact
    ensures i < |rows| && Accepted(p, rows[..i])
    ensures CheckRow(p, rows[i], Head(p, rows[..i])) == Check(p, rows)
  {
    hide CheckRow, Head, Accepted;
    var init := rows[..|rows| - 1];
    AcceptedIff(p, init);
    if Check(p, init) == Intact {
      i := |rows| - 1;
    } else {
      i := ReportsTheFirst(p, init);
      assert init[..i] == rows[..i];
    }
  }

  lemma {:induction false} FlatLength(parts: seq<Bytes>)
    requires forall i | 0 <= i < |parts| :: parts[i] != []
    ensures |Flatten(parts)| >= |parts|
    ensures (forall i | 0 <= i < |parts| :: |parts[i]| == 1) ==> |Flatten(parts)| == |parts|
  {
    if parts != [] { FlatLength(parts[1..]); }
  }

  lemma Utf8Length(s: string)
    ensures |Utf8(s)| >= |s|
    ensures (forall i | 0 <= i < |s| :: s[i] as int < 0x80) ==> |Utf8(s)| == |s|
  {
    FlatLength(CharBytes(s));
  }

  lemma SeedLength()
    ensures |Seed()| == 21
  {
    Utf8Length(GENESIS_SEED);
    hide Utf8;
  }

  /** Every encoding has at least 49 bytes: two integers, a non-empty details
      text and a hash. The seed has 21. */
  lemma NeverTheSeed(p: Primitives, row: LogRow)
    requires Lawful(p) && DetailsOf(p, row).Some? && |row.prev| == 32
    ensures Genesis(p) == p.sha(Utf8("dbil-audit-genesis-v1")) && |Seed()| == 21
    ensures |InputOf(p, row)| >= 49 && InputOf(p, row) != Seed()
  {
    SeedLength();
    hide Utf8, BigEndian;
    Utf8Length(DetailsOf(p, row).value);
    var raw := p.unseal(row.id, row.nonce, row.sealed).value;
    if raw != "" {
      UnmarshalIsValid(raw, p.num);
      CanonicalDecodes(Unmarshal(raw, p.num).value, p.num);
    }
  }

  /** Equal bytes have equal ids, timestamps, contents and prev hashes. */
  lemma InputSplits(p: Primitives, a: LogRow, b: LogRow)
    requires DetailsOf(p, a).Some? && DetailsOf(p, b).Some? && |a.prev| == |b.prev| == 32
    requires InputOf(p, a) == InputOf(p, b)
    ensures a.id == b.id && a.ts == b.ts && ContentOf(p, a) == ContentOf(p, b) && a.prev == b.prev
  {
    hide DetailsOf, ContentOf, BigEndian, Unsigned;
    FourParts(BigEndian(Unsigned(a.id), 8), BigEndian(Unsigned(a.ts), 8), ContentOf(p, a), a.prev,
              BigEndian(Unsigned(b.id), 8), BigEndian(Unsigned(b.ts), 8), ContentOf(p, b), b.prev);
    Int64Injective(a.id, b.id);
    Int64Injective(a.ts, b.ts);
  }

  lemma FourParts(a: Bytes, b: Bytes, c: Bytes, d: Bytes, a': Bytes, b': Bytes, c': Bytes, d': Bytes)
    requires |a| == |a'| && |b| == |b'| && |d| == |d'| && a + b + c + d == a' + b' + c' + d'
    ensures a == a' && b == b' && c == c' && d == d'
  {
    var x, y := a + b + c + d, a' + b' + c' + d';
    var n, m := |a|, |a| + |b|;
    assert |c| == |c'| by { assert |x| == |y|; }
    assert x[..n] == a && y[..n] == a';
    assert x[n..m] == b && y[n..m] == b';
    assert x[m..m + |c|] == c && y[m..m + |c|] == c';
    assert x[m + |c|..] == d && y[m + |c|..] == d';
  }

  // ----- the head determines the log -----

  ghost predicate NoCollision(p: Primitives, inputs: set<Bytes>) {
    forall x, y | x in inputs && y in inputs && p.sha(x) == p.sha(y) :: x == y
  }

  /** Two rows say the same, up to where user, action, resource and details meet. */
  ghost predicate Agree(p: Primitives, a: LogRow, b: LogRow) {
    && a.id == b.id && a.ts == b.ts && a.prev == b.prev && a.hash == b.hash
    && DetailsOf(p, a).Some? && DetailsOf(p, b).Some?
    && a.user + a.action + a.resource + Utf8(DetailsOf(p, a).value) == b.user + b.action + b.resource + Utf8(DetailsOf(p, b).value)
  }

  /** The byte strings hashed for a log, its rows' and the seed, are among these. */
  ghost predicate Covers(hashed: set<Bytes>, p: Primitives, rows: seq<LogRow>) {
    && Seed() in hashed
    && forall i | 0 <= i < |rows| && DetailsOf(p, rows[i]).Some? :: InputOf(p, rows[i]) in hashed
  }

  lemma CoversPrefix(hashed: set<Bytes>, p: Primitives, rows: seq<LogRow>, n: nat)
    requires n <= |rows| && Covers(hashed, p, rows)
    ensures Covers(hashed, p, rows[..n])
  {
    hide DetailsOf, InputOf, Utf8;
  }

  /** The last row of an accepted log. */
  lemma LastRow(p: Primitives, rows: seq<LogRow>)
    requires Accepted(p, rows) && rows != []
    ensures var init, row := rows[..|rows| - 1], rows[|rows| - 1];
            && Accepted(p, init) && row.prev == Head(p, init) && |row.prev| == 32
            && DetailsOf(p, row).Some? && p.sha(InputOf(p, row)) == row.hash == Head(p, rows)
  {
    AcceptedSnoc(p, rows);
    hide DetailsOf, InputOf, Accepted;
  }

  /** If VerifyChain accepts two logs with the same last hash, they have the same
      length and agree row by row. An empty log's head is the genesis hash, which
      no entry can have. */
  lemma {:induction false} HeadDeterminesLog(p: Primitives, a: seq<LogRow>, b: seq<LogRow>, hashed: set<Bytes>)
    requires Lawful(p) && Accepted(p, a) && Accepted(p, b) && Head(p, a) == Head(p, b)
    requires NoCollision(p, hashed) && Covers(hashed, p, a) && Covers(hashed, p, b)
    ensures |a| == |b| && forall i | 0 <= i < |a| :: Agree(p, a[i], b[i])
  {
    hide Lawful, Steady, Accepted, Covers, NoCollision, Agree, Genesis;
    if a == [] || b == [] {
      if a != [] { NotGenesis(p, a, hashed); }
      if b != [] { NotGenesis(p, b, hashed); }
    } else {
      var x, y := a[..|a| - 1], b[..|b| - 1];
      LastRowsAgree(p, a, b, hashed);
      CoversPrefix(hashed, p, a, |a| - 1);
      CoversPrefix(hashed, p, b, |b| - 1);
      HeadDeterminesLog(p, x, y, hashed);
      forall i | 0 <= i < |a| ensures Agree(p, a[i], b[i]) {
        if i < |x| { assert Agree(p, x[i], y[i]); }
      }
    }
  }

  lemma LastRowsAgree(p: Primitives, a: seq<LogRow>, b: seq<LogRow>, hashed: set<Bytes>)
    requires Accepted(p, a) && Accepted(p, b) && a != [] && b != [] && Head(p, a) == Head(p, b)
    requires NoCollision(p, hashed) && Covers(hashed, p, a) && Covers(hashed, p, b)
    ensures Agree(p, a[|a| - 1], b[|b| - 1])
    ensures var x, y := a[..|a| - 1], b[..|b| - 1];
            Accepted(p, x) && Accepted(p, y) && Head(p, x) == Head(p, y)
  {
    hide Accepted, DetailsOf, InputOf, Utf8;
    LastRow(p, a);
    LastRow(p, b);
    InputSplits(p, a[|a| - 1], b[|b| - 1]);
  }

  lemma NotGenesis(p: Primitives, rows: seq<LogRow>, hashed: set<Bytes>)
    requires Lawful(p) && Accepted(p, rows) && rows != []
    requires NoCollision(p, hashed) && Covers(hashed, p, rows)
    ensures Head(p, rows) != Genesis(p)
  {
    hide Lawful, Utf8, DetailsOf, InputOf, Accepted;
    LastRow(p, rows);
    NeverTheSeed(p, rows[|rows| - 1]);
  }

  lemma PrefixAccepted(p: Primitives, rows: seq<LogRow>, n: nat)
    requires Accepted(p, rows) && n <= |rows|
    ensures Accepted(p, rows[..n])
  {
    hide Linked;
    forall i | 0 <= i < n ensures LinkedAt(p, rows[..n], i) {
      assert LinkedAt(p, rows, i);
      assert rows[..n][..i] == rows[..i];
    }
  }

  lemma PrefixHead(p: Primitives, rows: seq<LogRow>, i: nat)
    requires i < |rows|
    ensures Head(p, rows[..i + 1]) == rows[i].hash
  {
    hide Genesis;
  }

  /** Wherever two accepted logs share an entry hash, at whatever positions, they
      are the same up to there; within one log no entry hash repeats. */
  lemma SharedHashSharesPast(p: Primitives, a: seq<LogRow>, b: seq<LogRow>, i: nat, j: nat, hashed: set<Bytes>)
    requires Lawful(p) && Accepted(p, a) && Accepted(p, b) && i < |a| && j < |b| && a[i].hash == b[j].hash
    requires NoCollision(p, hashed) && Covers(hashed, p, a) && Covers(hashed, p, b)
    ensures i == j && forall k | 0 <= k <= i :: Agree(p, a[k], b[k])
  {
    hide *;
    PrefixHead(p, a, i);
    PrefixHead(p, b, j);
    PrefixAccepted(p, a, i + 1);
    PrefixAccepted(p, b, j + 1);
    CoversPrefix(hashed, p, a, i + 1);
    CoversPrefix(hashed, p, b, j + 1);
    HeadDeterminesLog(p, a[..i + 1], b[..j + 1], hashed);
    forall k | 0 <= k <= i ensures Agree(p, a[k], b[k]) {
      assert Agree(p, a[..i + 1][k], b[..j + 1][k]);
    }
  }

  /** A row whose encoded bytes were changed, or can no longer be read, while its
      stored entry hash stayed, is always rejected, whatever else was changed. */
  lemma TamperingIsCaught(p: Primitives, a: seq<LogRow>, b: seq<LogRow>, i: nat, hashed: set<Bytes>)
    requires Accepted(p, a) && i < |a| && i < |b| && b[i].hash == a[i].hash
    requires !Agree(p, a[i], b[i])
    requires NoCollision(p, hashed) && Covers(hashed, p, a) && Covers(hashed, p, b)
    ensures !Accepted(p, b)
  {
    if Accepted(p, b) {
      assert LinkedAt(p, a, i) && LinkedAt(p, b, i);
      hide Accepted, Head, DetailsOf, InputOf, Utf8;
      InputSplits(p, a[i], b[i]);
    }
  }
}
