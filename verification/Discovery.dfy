/** The discovery reconciler: discovered_connections rows
    (internal/store/discovered.go), the scan pass (internal/discover/manager.go)
    and the approve and reject handlers (internal/server/handlers/discover.go).
    Each repository call and each handler is one atomic step. */
module Discovery {
  import opened Base

  datatype Status = Pending | Approved | Rejected | Unreachable

  /** What a scanner reports of a service, apart from its identity. */
  datatype Fields = Fields(
    alias: string, host: string, port: int, database: string, username: string,
    password: Option<string>, tag: string)

  datatype Row = Row(
    id: nat, source: string, key: string, fields: Fields, status: Status,
    lastSeen: int, createdAt: int, approvedConn: Option<nat>)

  datatype Entry = Entry(source: string, key: string, fields: Fields)

  /** Database trouble met by one Upsert. */
  datatype Fault = NoFault | ReadFails | WriteFails

  /** A connection made by an approval, under the alias the row then had;
      recorded when the row was then marked. */
  datatype Created = Created(rowId: nat, connId: nat, alias: string, recorded: bool)

  /** A new row's turn at the audit log, and whether its entry was written. */
  datatype Detection = Detection(rowId: nat, written: bool)

  /** The rows; the detections; the connections that exist, by id, each with its
      alias; the next connection id, never used before; and every connection an
      approval made. */
  datatype World = World(
    rows: seq<Row>, detections: seq<Detection>,
    conns: map<nat, string>, nextConn: nat, created: seq<Created>)

  const EMPTY := World([], [], map[], 1, [])

  const TAGS: set<string> := {"local", "dev", "staging", "production"}
  const SOURCES: set<string> := {"env", "docker"}

  predicate Acceptable(e: Entry) {
    e.fields.tag in TAGS && e.source in SOURCES
    && e.fields.alias != "" && e.fields.host != "" && e.key != ""
    && 0 < e.fields.port <= 65535
  }

  /** SELECT ... WHERE source = ? AND source_key = ? */
  function Find(rows: seq<Row>, source: string, key: string): (r: Option<nat>)
    ensures r.Some? ==> r.value < |rows| && rows[r.value].source == source && rows[r.value].key == key
    ensures r.None? ==> forall i | 0 <= i < |rows| :: rows[i].source != source || rows[i].key != key
  {
    if rows == [] then None
    else if rows[0].source == source && rows[0].key == key then Some(0)
    else
      match Find(rows[1..], source, key)
      case None => None
      case Some(i) => Some(i + 1)
  }

  datatype Upserted = Refused | Kept(id: nat) | Inserted(id: nat)

  function Refreshed(r: Row, e: Entry, now: int): Row {
    r.(fields := e.fields, status := Pending, lastSeen := now)
  }

  function UpsertRows(rows: seq<Row>, e: Entry, now: int, fault: Fault): (seq<Row>, Upserted) {
    if !Acceptable(e) || fault == ReadFails then (rows, Refused)
    else
      match Find(rows, e.source, e.key)
      case Some(i) =>
        if rows[i].status == Rejected then (rows, Kept(rows[i].id))
        else if rows[i].status == Approved then
          // A failed last_seen write is ignored.
          (if fault == WriteFails then rows else rows[i := rows[i].(lastSeen := now)], Kept(rows[i].id))
        else if fault == WriteFails then (rows, Refused)
        else (rows[i := Refreshed(rows[i], e, now)], Kept(rows[i].id))
      case None =>
        if fault == WriteFails then (rows, Refused)
        else (rows + [Row(|rows| + 1, e.source, e.key, e.fields, Pending, now, now, None)], Inserted(|rows| + 1))
  }

  /** Pending rows of the source whose key was not seen become unreachable. */
  function Lapse(r: Row, source: string, keys: seq<string>): Row {
    if r.source == source && r.status == Pending && r.key !in keys then r.(status := Unreachable) else r
  }

  function MarkRows(rows: seq<Row>, source: string, keys: seq<string>): (r: seq<Row>)
    ensures |r| == |rows|
    ensures forall i | 0 <= i < |rows| :: r[i] == Lapse(rows[i], source, keys)
  {
    if rows == [] then [] else [Lapse(rows[0], source, keys)] + MarkRows(rows[1..], source, keys)
  }

  // ----- a scan pass -----

  /** An entry of a scan, the trouble its Upsert meets, and whether the audit log
      takes an entry (there is a log, and its error is discarded). */
  datatype Finding = Finding(entry: Entry, fault: Fault, auditOk: bool)

  /** One scanner's turn: a failed scan, or what it found and whether the
      unreachable update went through. */
  datatype Scan = ScanFailed(source: string) | Found(source: string, entries: seq<Finding>, markOk: bool)

  function KeysOf(es: seq<Finding>): (r: seq<string>)
    ensures |r| == |es| && forall i | 0 <= i < |es| :: r[i] == es[i].entry.key
  {
    if es == [] then [] else [es[0].entry.key] + KeysOf(es[1..])
  }

  function EntryStep(w: World, f: Finding, now: int): World {
    var (rows, u) := UpsertRows(w.rows, f.entry, now, f.fault);
    w.(rows := rows, detections := if u.Inserted? then w.detections + [Detection(u.id, f.auditOk)] else w.detections)
  }

  function Entries(w: World, es: seq<Finding>, now: int): World {
    if es == [] then w else EntryStep(Entries(w, es[..|es| - 1], now), es[|es| - 1], now)
  }

  function ScanStep(w: World, scan: Scan, now: int): World {
    match scan
    case ScanFailed(_) => w
    case Found(source, es, markOk) =>
      var w' := Entries(w, es, now);
      if markOk then w'.(rows := MarkRows(w'.rows, source, KeysOf(es))) else w'
  }

  /** Entries that were stored, new or refreshed. */
  function Stored(w: World, es: seq<Finding>, now: int): nat {
    if es == [] then 0
    else
      var w' := Entries(w, es[..|es| - 1], now);
      var f := es[|es| - 1];
      Stored(w, es[..|es| - 1], now) + (if UpsertRows(w'.rows, f.entry, now, f.fault).1.Refused? then 0 else 1)
  }

  function PassStored(w: World, scans: seq<Scan>, now: int): nat {
    if scans == [] then 0
    else
      var scan := scans[|scans| - 1];
      PassStored(w, scans[..|scans| - 1], now)
      + (if scan.Found? then Stored(Pass(w, scans[..|scans| - 1], now), scan.entries, now) else 0)
  }

  function Pass(w: World, scans: seq<Scan>, now: int): World {
    if scans == [] then w else ScanStep(Pass(w, scans[..|scans| - 1], now), scans[|scans| - 1], now)
  }

  lemma FailedIsIdle(w: World, scan: Scan, now: int)
    ensures scan.ScanFailed? ==> ScanStep(w, scan, now) == w
  {
  }

  lemma EmptyKeys()
    ensures KeysOf([]) == []
  {
  }

  lemma KeysSnoc(es: seq<Finding>, f: Finding)
    ensures KeysOf(es + [f]) == KeysOf(es) + [f.entry.key]
  {
  }

  // ----- approving and rejecting -----

  datatype Reply = Done | NotFound | Conflict | PassphraseRequired | AliasTaken | Failed

  /** What the outside does to one approval: whether a passphrase came with it,
      whether the password can be revealed, whether the connection could be
      made but for its alias, and whether the row can then be marked. */
  datatype Approval = Approval(passphrase: bool, revealOk: bool, createOk: bool, markOk: bool)

  /** alias TEXT UNIQUE */
  predicate Taken(w: World, alias: string) {
    alias in w.conns.Values
  }

  function WithConn(w: World, alias: string): World {
    w.(conns := w.conns[w.nextConn := alias], nextConn := w.nextConn + 1)
  }

  function Approve(w: World, id: nat, a: Approval, now: int): (World, Reply) {
    if id == 0 || id > |w.rows| then (w, NotFound)
    else
      var r := w.rows[id - 1];
      if r.status == Approved || r.status == Rejected then (w, Conflict)
      else if r.fields.tag == "production" && !a.passphrase then (w, PassphraseRequired)
      else if !a.revealOk || !a.createOk then (w, Failed)
      else if Taken(w, r.fields.alias) then (w, AliasTaken)
      else
        var w' := WithConn(w, r.fields.alias).(
          created := w.created + [Created(id, w.nextConn, r.fields.alias, a.markOk)]);
        if !a.markOk then (w', Failed)
        else
          (w'.(rows := w.rows[id - 1 := r.(status := Approved, approvedConn := Some(w.nextConn), lastSeen := now)]), Done)
  }

  function Reject(w: World, id: nat, dbOk: bool): (World, Reply) {
    if id == 0 || id > |w.rows| then (w, NotFound)
    else if !dbOk then (w, Failed)
    else (w.(rows := w.rows[id - 1 := w.rows[id - 1].(status := Rejected)]), Done)
  }

  // ----- connections by hand -----

  function AddConn(w: World, alias: string, dbOk: bool): World {
    if dbOk && alias != "" && !Taken(w, alias) then WithConn(w, alias) else w
  }

  /** approved_conn_id REFERENCES connections(id) ON DELETE SET NULL */
  function Unlink(r: Row, conn: nat): Row {
    if r.approvedConn == Some(conn) then r.(approvedConn := None) else r
  }

  function UnlinkAll(rows: seq<Row>, conn: nat): (r: seq<Row>)
    ensures |r| == |rows| && forall i | 0 <= i < |rows| :: r[i] == Unlink(rows[i], conn)
  {
    if rows == [] then [] else [Unlink(rows[0], conn)] + UnlinkAll(rows[1..], conn)
  }

  function DeleteConn(w: World, conn: nat, dbOk: bool): World {
    if dbOk && conn in w.conns then w.(conns := w.conns - {conn}, rows := UnlinkAll(w.rows, conn)) else w
  }

  // ----- the same, on state updated in place -----

  class Repo {
    var rows: seq<Row>
    var detections: seq<Detection>
    var conns: map<nat, string>
    var nextConn: nat
    var created: seq<Created>

    function View(): World
      reads this
    {
      World(rows, detections, conns, nextConn, created)
    }

    constructor ()
      ensures View() == EMPTY
    {
      rows, detections, conns, nextConn, created := [], [], map[], 1, [];
    }

    method Upsert(e: Entry, now: int, fault: Fault) returns (u: Upserted)
      modifies this`rows
      ensures (rows, u) == UpsertRows(old(rows), e, now, fault)
    {
      if !Acceptable(e) { return Refused; }
      if fault == ReadFails { return Refused; }
      match Find(rows, e.source, e.key) {
        case Some(i) =>
          var existing := rows[i];
          match existing.status {
            case Rejected =>
            case Approved =>
              if fault != WriteFails { rows := rows[i := existing.(lastSeen := now)]; }
            case _ =>
              if fault == WriteFails { return Refused; }
              rows := rows[i := existing.(fields := e.fields, status := Pending, lastSeen := now)];
          }
          return Kept(existing.id);
        case None =>
          if fault == WriteFails { return Refused; }
          rows := rows + [Row(|rows| + 1, e.source, e.key, e.fields, Pending, now, now, None)];
          return Inserted(|rows|);
      }
    }

    /** One UPDATE over the table: afterwards every pending row of the source was
        seen, and a row that differs was pending and is now unreachable. */
    method MarkUnreachable(source: string, keys: seq<string>)
      modifies this`rows
      ensures rows == MarkRows(old(rows), source, keys)
      ensures forall r | r in rows && r.source == source && r.status == Pending :: r.key in keys
      ensures forall i | 0 <= i < |rows| && rows[i] != old(rows)[i] ::
                old(rows)[i].source == source && old(rows)[i].status == Pending && old(rows)[i].key !in keys
                && rows[i] == old(rows)[i].(status := Unreachable)
    {
      var i := 0;
      while i < |rows|
        invariant 0 <= i <= |rows| == |old(rows)|
        invariant forall j | 0 <= j < i :: rows[j] == Lapse(old(rows)[j], source, keys)
        invariant forall j | i <= j < |rows| :: rows[j] == old(rows)[j]
      {
        var r := rows[i];
        if r.source == source && r.status == Pending && r.key !in keys {
          rows := rows[i := r.(status := Unreachable)];
        }
        i := i + 1;
      }
    }

    /** RunOnce: every scanner once; a failed scan is skipped, a refused entry
        still counts as seen. */
    method RunOnce(scans: seq<Scan>, now: int) returns (persisted: nat)
      modifies this
      ensures View() == Pass(old(View()), scans, now)
      ensures persisted == PassStored(old(View()), scans, now)
    {
      hide ScanStep, Stored;
      persisted := 0;
      var k := 0;
      while k < |scans|
        invariant 0 <= k <= |scans|
        invariant View() == Pass(old(View()), scans[..k], now)
        invariant persisted == PassStored(old(View()), scans[..k], now)
      {
        assert scans[..k + 1][..k] == scans[..k];
        FailedIsIdle(View(), scans[k], now);
        if scans[k].Found? {
          var n := ScanOne(scans[k], now);
          persisted := persisted + n;
        }
        k := k + 1;
      }
      assert scans[..k] == scans;
    }

    method ScanOne(scan: Scan, now: int) returns (persisted: nat)
      requires scan.Found?
      modifies this
      ensures View() == ScanStep(old(View()), scan, now)
      ensures persisted == Stored(old(View()), scan.entries, now)
    {
      var keys: seq<string>;
      keys, persisted := StoreEntries(scan.entries, now);
      if scan.markOk { MarkUnreachable(scan.source, keys); }
    }

    method StoreEntries(es: seq<Finding>, now: int) returns (keys: seq<string>, persisted: nat)
      modifies this
      ensures View() == Entries(old(View()), es, now)
      ensures keys == KeysOf(es) && persisted == Stored(old(View()), es, now)
    {
      hide UpsertRows, KeysOf;
      keys, persisted := [], 0;
      EmptyKeys();
      var i := 0;
      while i < |es|
        invariant 0 <= i <= |es|
        invariant View() == Entries(old(View()), es[..i], now)
        invariant keys == KeysOf(es[..i]) && persisted == Stored(old(View()), es[..i], now)
      {
        var f := es[i];
        assert es[..i + 1][..i] == es[..i] && es[..i + 1] == es[..i] + [es[i]];
        KeysSnoc(es[..i], es[i]);
        keys := keys + [f.entry.key];
        var u := Upsert(f.entry, now, f.fault);
        if !u.Refused? { persisted := persisted + 1; }
        if u.Inserted? { detections := detections + [Detection(u.id, f.auditOk)]; }
        i := i + 1;
      }
      assert es[..i] == es;
    }

    method ApproveRow(id: nat, a: Approval, now: int) returns (reply: Reply)
      modifies this
      ensures (View(), reply) == Approve(old(View()), id, a, now)
    {
      if id == 0 || id > |rows| { return NotFound; }
      var r := rows[id - 1];
      if r.status == Approved { return Conflict; }
      if r.status == Rejected { return Conflict; }
      if r.fields.tag == "production" && !a.passphrase { return PassphraseRequired; }
      if !a.revealOk { return Failed; }
      if !a.createOk { return Failed; }
      if r.fields.alias in conns.Values { return AliasTaken; }
      var conn := nextConn;
      conns, nextConn := conns[conn := r.fields.alias], conn + 1;
      created := created + [Created(id, conn, r.fields.alias, a.markOk)];
      if !a.markOk { return Failed; }
      rows := rows[id - 1 := r.(status := Approved, approvedConn := Some(conn), lastSeen := now)];
      reply := Done;
    }

    method RejectRow(id: nat, dbOk: bool) returns (reply: Reply)
      modifies this`rows
      ensures (View(), reply) == Reject(old(View()), id, dbOk)
    {
      if id == 0 || id > |rows| { return NotFound; }
      if !dbOk { return Failed; }
      rows := rows[id - 1 := rows[id - 1].(status := Rejected)];
      reply := Done;
    }
  }
}
