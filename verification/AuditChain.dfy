/** The tamper-evident audit log: entry encoding and hashing
    (internal/audit/hashchain.go), Append and VerifyChain
    (internal/store/audit.go). SHA-256, the cipher and number formatting are
    parameters. */
module AuditChain {
  import opened Base
  import opened CanonicalJson
  import opened Canonicalizing

  newtype Byte = b: int | 0 <= b < 256
  type Bytes = seq<Byte>

  const MAX_INT64 := 0x7FFF_FFFF_FFFF_FFFF
  type Int64 = x: int | -MAX_INT64 - 1 <= x <= MAX_INT64

  /** uint64(x) */
  function Unsigned(x: Int64): (r: nat)
    ensures r < 0x1_0000_0000_0000_0000
  {
    if x < 0 then x + 0x1_0000_0000_0000_0000 else x
  }

  /** The last k bytes of n, most significant first. */
  function BigEndian(n: nat, k: nat): (r: Bytes)
    ensures |r| == k
  {
    if k == 0 then [] else BigEndian(n / 256, k - 1) + [(n % 256) as Byte]
  }

  function Utf8Char(c: char): (r: Bytes)
    ensures 1 <= |r| <= 4
  {
    var n := c as int;
    if n < 0x80 then [n as Byte]
    else if n < 0x800 then [(0xC0 + n / 64) as Byte, Trail(n)]
    else if n < 0x1_0000 then [(0xE0 + n / 4096) as Byte, Trail(n / 64), Trail(n)]
    else [(0xF0 + n / 262144) as Byte, Trail(n / 4096), Trail(n / 64), Trail(n)]
  }

  /** A continuation byte carries six bits. */
  function Trail(n: nat): Byte {
    (0x80 + n % 64) as Byte
  }

  function CharBytes(s: string): seq<Bytes> {
    seq(|s|, i requires 0 <= i < |s| => Utf8Char(s[i]))
  }

  function Flatten(parts: seq<Bytes>): Bytes {
    if parts == [] then [] else parts[0] + Flatten(parts[1..])
  }

  function Utf8(s: string): Bytes {
    Flatten(CharBytes(s))
  }

  const GENESIS_SEED := "dbil-audit-genesis-v1"

  /** What the log leaves to others. A field is sealed under the id of its entry. */
  datatype Primitives = Primitives(
    sha: Bytes -> Bytes,
    seal: (Int64, string, Bytes) -> Bytes,
    unseal: (Int64, Bytes, Bytes) -> Option<string>,
    num: Reading)

  ghost predicate Lawful(p: Primitives) {
    && Steady(p.num)
    && (forall x :: |p.sha(x)| == 32)
    && (forall id, raw, nonce :: p.unseal(id, nonce, p.seal(id, raw, nonce)) == Some(raw))
  }

  function Seed(): Bytes {
    Utf8(GENESIS_SEED)
  }

  function Genesis(p: Primitives): Bytes {
    p.sha(Seed())
  }

  datatype Entry = Entry(id: Int64, ts: Int64, user: Bytes, action: Bytes, resource: Bytes, details: string, prev: Bytes)

  datatype LogRow = LogRow(
    id: Int64, ts: Int64, user: Bytes, action: Bytes, resource: Bytes,
    sealed: Bytes, nonce: Bytes, prev: Bytes, hash: Bytes)

  /** The three text fields and the canonical details, with nothing between them. */
  function Content(e: Entry, details: string): Bytes {
    e.user + e.action + e.resource + Utf8(details)
  }

  function Encoding(e: Entry, details: string): Bytes {
    BigEndian(Unsigned(e.id), 8) + BigEndian(Unsigned(e.ts), 8) + Content(e, details) + e.prev
  }

  ghost function HashOf(p: Primitives, e: Entry): Result<Bytes, CanonError> {
    match CanonicalForm(e.details, p.num)
    case Err(x) => Err(x)
    case Ok(t) => Ok(p.sha(Encoding(e, t)))
  }

  method Hash(p: Primitives, e: Entry) returns (r: Result<Bytes, CanonError>)
    ensures r == HashOf(p, e)
  {
    var details := Canonicalize(e.details, p.num);
    if details.Err? { return Err(details.error); }
    var buf: Bytes := [];
    buf := buf + BigEndian(Unsigned(e.id), 8);
    buf := buf + BigEndian(Unsigned(e.ts), 8);
    buf := buf + e.user;
    buf := buf + e.action;
    buf := buf + e.resource;
    buf := buf + Utf8(details.value);
    buf := buf + e.prev;
    Concatenated(BigEndian(Unsigned(e.id), 8), BigEndian(Unsigned(e.ts), 8), e.user, e.action, e.resource, Utf8(details.value), e.prev);
    r := Ok(p.sha(buf));
  }

  lemma Concatenated(a: Bytes, b: Bytes, c: Bytes, d: Bytes, e: Bytes, f: Bytes, g: Bytes)
    ensures [] + a + b + c + d + e + f + g == a + b + (c + d + e + f) + g
  {
    assert [] + a == a;
  }

  // ----- verifying -----

  datatype Verdict =
    | Intact
    | MalformedHashes(id: Int64)
    | PrevMismatch(id: Int64)
    | Undecryptable(id: Int64)
    | DetailsMalformed(id: Int64)
    | HashMismatch(id: Int64)

  function EntryOf(row: LogRow, raw: string): Entry {
    Entry(row.id, row.ts, row.user, row.action, row.resource, raw, row.prev)
  }

  ghost function CheckRow(p: Primitives, row: LogRow, expected: Bytes): Verdict {
    if |row.prev| != 32 || |row.hash| != 32 then MalformedHashes(row.id)
    else if row.prev != expected then PrevMismatch(row.id)
    else
      match p.unseal(row.id, row.nonce, row.sealed)
      case None => Undecryptable(row.id)
      case Some(raw) =>
        match HashOf(p, EntryOf(row, raw))
        case Err(_) => DetailsMalformed(row.id)
        case Ok(h) => if h == row.hash then Intact else HashMismatch(row.id)
  }

  /** The first violation along the chain. */
  ghost function Check(p: Primitives, rows: seq<LogRow>): Verdict {
    if rows == [] then Intact
    else
      var init, last := rows[..|rows| - 1], rows[|rows| - 1];
      if Check(p, init) != Intact then Check(p, init) else CheckRow(p, last, Head(p, init))
  }

  /** The hash the next entry must point to. */
  function Head(p: Primitives, rows: seq<LogRow>): Bytes {
    if rows == [] then Genesis(p) else rows[|rows| - 1].hash
  }

  // ----- appending -----

  datatype Fault = NoFault | KeyFails | BeginFails | LoadFails | EncryptFails | InsertFails | CommitFails

  /** One call of Append; no details when they cannot be marshalled. */
  datatype Call = Call(
    user: Bytes, action: Bytes, resource: Bytes, details: Option<string>,
    nonce: Bytes, now: Int64, fault: Fault)

  datatype AppendError = MarshalFailed | Trouble(fault: Fault) | PrevHashLength(n: nat) | BadDetails

  /** int64 addition wraps. */
  function NextId(rows: seq<LogRow>): Int64 {
    if rows == [] then 1
    else if rows[|rows| - 1].id == MAX_INT64 then -MAX_INT64 - 1
    else rows[|rows| - 1].id + 1
  }

  /** INSERT under an id: the table is kept, and read, in id order. */
  function Stored(rows: seq<LogRow>, row: LogRow): Result<seq<LogRow>, AppendError> {
    if rows == [] || rows[|rows| - 1].id < row.id then Ok(rows + [row])
    else if row.id < rows[0].id then Ok([row] + rows)
    else Err(Trouble(InsertFails))
  }

  function NewEntry(p: Primitives, rows: seq<LogRow>, c: Call): Entry
    requires c.details.Some?
  {
    Entry(NextId(rows), c.now, c.user, c.action, c.resource, c.details.value, Head(p, rows))
  }

  /** The row Append is to insert. */
  ghost function NewRow(p: Primitives, rows: seq<LogRow>, c: Call): Result<LogRow, AppendError> {
    if c.details.None? then Err(MarshalFailed)
    else if c.fault == KeyFails || c.fault == BeginFails || c.fault == LoadFails then Err(Trouble(c.fault))
    else if |Head(p, rows)| != 32 then Err(PrevHashLength(|Head(p, rows)|))
    else if c.fault == EncryptFails then Err(Trouble(EncryptFails))
    else
      var e := NewEntry(p, rows, c);
      match HashOf(p, e)
      case Err(_) => Err(BadDetails)
      case Ok(h) =>
        Ok(LogRow(e.id, e.ts, e.user, e.action, e.resource, p.seal(e.id, e.details, c.nonce), c.nonce, e.prev, h))
  }

  /** The log after Append, or why it is unchanged. */
  ghost function Appended(p: Primitives, rows: seq<LogRow>, c: Call): Result<seq<LogRow>, AppendError> {
    match NewRow(p, rows, c)
    case Err(x) => Err(x)
    case Ok(row) =>
      if c.fault == InsertFails then Err(Trouble(InsertFails))
      else
        match Stored(rows, row)
        case Err(x) => Err(x)
        case Ok(log) => if c.fault == CommitFails then Err(Trouble(CommitFails)) else Ok(log)
  }

  class AuditRepo {
    const p: Primitives
    var rows: seq<LogRow>

    constructor (p: Primitives)
      ensures this.p == p && rows == []
    {
      this.p := p;
      rows := [];
    }

    method LoadPrevHash() returns (r: Result<Bytes, AppendError>)
      requires Lawful(p)
      ensures r == if |Head(p, rows)| == 32 then Ok(Head(p, rows)) else Err(PrevHashLength(|Head(p, rows)|))
    {
      if rows == [] { return Ok(Genesis(p)); }
      var prev := rows[|rows| - 1].hash;
      if |prev| != 32 { return Err(PrevHashLength(|prev|)); }
      r := Ok(prev);
    }

    method MakeRow(c: Call) returns (r: Result<LogRow, AppendError>)
      requires Lawful(p)
      ensures r == NewRow(p, rows, c)
    {
      hide HashOf, Head, NextId, Lawful;
      if c.details.None? { return Err(MarshalFailed); }
      if c.fault == KeyFails || c.fault == BeginFails || c.fault == LoadFails { return Err(Trouble(c.fault)); }
      var prev := LoadPrevHash();
      if prev.Err? { return Err(prev.error); }
      var id := NextId(rows);
      if c.fault == EncryptFails { return Err(Trouble(EncryptFails)); }
      var sealed := p.seal(id, c.details.value, c.nonce);
      var e := Entry(id, c.now, c.user, c.action, c.resource, c.details.value, prev.value);
      var h := Hash(p, e);
      if h.Err? { return Err(BadDetails); }
      r := Ok(LogRow(id, c.now, c.user, c.action, c.resource, sealed, c.nonce, prev.value, h.value));
    }

    /** Append, one transaction: a failure at any point leaves the log alone. */
    method Append(c: Call) returns (r: Result<Bytes, AppendError>)
      requires Lawful(p)
      modifies this
      ensures match Appended(p, old(rows), c)
              case Ok(log) => rows == log && r == Ok(NewRow(p, old(rows), c).value.hash)
              case Err(x) => rows == old(rows) && r == Err(x)
    {
      hide NewRow, Stored, Lawful;
      var row := MakeRow(c);
      if row.Err? { return Err(row.error); }
      if c.fault == InsertFails { return Err(Trouble(InsertFails)); }
      var stored := Stored(rows, row.value);
      if stored.Err? { return Err(stored.error); }
      if c.fault == CommitFails { return Err(Trouble(CommitFails)); }
      rows := stored.value;
      r := Ok(row.value.hash);
    }

    /** VerifyChain: walks the log in id order and reports the first violation. */
    method VerifyChain() returns (v: Verdict)
      ensures v == Check(p, rows)
    {
      hide HashOf, Genesis;
      var expectedPrev := Genesis(p);
      var i := 0;
      while i < |rows|
        invariant 0 <= i <= |rows|
        invariant expectedPrev == Head(p, rows[..i])
        invariant Check(p, rows[..i]) == Intact
      {
        var row := rows[i];
        assert rows[..i + 1][..i] == rows[..i];
        ghost var verdict := CheckRow(p, row, expectedPrev);
        assert Check(p, rows[..i + 1]) == verdict;
        if verdict != Intact { StopsAt(p, rows, i + 1); }
        if |row.prev| != 32 || |row.hash| != 32 { return MalformedHashes(row.id); }
        if row.prev != expectedPrev { return PrevMismatch(row.id); }
        var raw := p.unseal(row.id, row.nonce, row.sealed);
        if raw.None? { return Undecryptable(row.id); }
        var got := Hash(p, EntryOf(row, raw.value));
        if got.Err? { return DetailsMalformed(row.id); }
        if got.value != row.hash { return HashMismatch(row.id); }
        expectedPrev := row.hash;
        i := i + 1;
      }
      assert rows[..i] == rows;
      v := Intact;
    }
  }

  /** A violation in a prefix is the log's violation. */
  lemma {:induction false} StopsAt(p: Primitives, rows: seq<LogRow>, n: nat)
    requires n <= |rows| && Check(p, rows[..n]) != Intact
    ensures Check(p, rows) == Check(p, rows[..n])
  {
    hide CheckRow;
    if n < |rows| {
      var init := rows[..|rows| - 1];
      assert init[..n] == rows[..n];
      StopsAt(p, init, n);
    } else {
      assert rows[..n] == rows;
    }
  }

  ghost predicate NumberedFrom1(rows: seq<LogRow>) {
    forall i | 0 <= i < |rows| :: rows[i].id == i + 1
  }
}
