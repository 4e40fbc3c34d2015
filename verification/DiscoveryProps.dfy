/** What scans, approvals, rejections and connection changes keep over whole
    runs, and what one scan pass establishes. */
module DiscoveryProps {
  import opened Base
  import opened Discovery

  // ----- decisions stick -----

  datatype Event =
    | Scanned(scans: seq<Scan>, now: int)
    | ApproveAsked(id: nat, approval: Approval, now: int)
    | RejectAsked(id: nat, dbOk: bool)
    | ConnAdded(alias: string, dbOk: bool)
    | ConnDeleted(conn: nat, dbOk: bool)

  function Step(w: World, ev: Event): World {
    match ev
    case Scanned(scans, now) => Pass(w, scans, now)
    case ApproveAsked(id, a, now) => Approve(w, id, a, now).0
    case RejectAsked(id, ok) => Reject(w, id, ok).0
    case ConnAdded(alias, ok) => AddConn(w, alias, ok)
    case ConnDeleted(conn, ok) => DeleteConn(w, conn, ok)
  }

  function Play(w: World, evs: seq<Event>): World {
    if evs == [] then w else Step(Play(w, evs[..|evs| - 1]), evs[|evs| - 1])
  }

  /** The link to a connection can only be lost, with the connection. */
  predicate LinkKept(r: Row, r': Row) {
    r'.approvedConn == r.approvedConn || r'.approvedConn.None?
  }

  /** How one row may change: never its identity; nothing but its link once
      rejected; from approved only to rejected. */
  predicate RowKept(r: Row, r': Row) {
    && r'.id == r.id && r'.source == r.source && r'.key == r.key && r'.createdAt == r.createdAt
    && (r.status == Rejected ==> r'.(approvedConn := None) == r.(approvedConn := None) && LinkKept(r, r'))
    && (r.status == Approved ==>
          (r'.status == Approved || r'.status == Rejected) && r'.fields == r.fields && LinkKept(r, r'))
  }

  /** Rows never vanish, and each changes only as RowKept allows. */
  ghost predicate Sticks(w: World, w': World) {
    && |w.rows| <= |w'.rows|
    && forall i | 0 <= i < |w.rows| :: RowKept(w.rows[i], w'.rows[i])
  }

  predicate Open(w: World, id: nat) {
    1 <= id <= |w.rows| && (w.rows[id - 1].status == Pending || w.rows[id - 1].status == Unreachable)
  }

  ghost predicate Settled(w: World, id: nat) {
    1 <= id <= |w.rows| && (w.rows[id - 1].status == Approved || w.rows[id - 1].status == Rejected)
  }

  /** Rows are numbered in order and unique per (source, key). */
  ghost predicate RowsGood(rows: seq<Row>) {
    && (forall i | 0 <= i < |rows| :: rows[i].id == i + 1)
    && (forall i, j | 0 <= i < j < |rows| :: rows[i].source != rows[j].source || rows[i].key != rows[j].key)
  }

  /** Each row had one turn at the audit log, in the order of the ids. */
  ghost predicate DetectedGood(ds: seq<Detection>, n: nat) {
    |ds| == n && forall i | 0 <= i < n :: ds[i].rowId == i + 1
  }

  /** After a recorded connection for a row no other is made for it, and the
      row is settled. */
  ghost predicate CreatedGood(w: World) {
    && (forall i | 0 <= i < |w.created| :: 1 <= w.created[i].rowId <= |w.rows|)
    && (forall i, j | 0 <= i < j < |w.created| && w.created[i].rowId == w.created[j].rowId :: !w.created[i].recorded)
    && (forall i | 0 <= i < |w.created| && w.created[i].recorded :: Settled(w, w.created[i].rowId))
  }

  /** Connections have distinct aliases and ids below the next one; one made by an
      approval keeps its alias while it exists. */
  ghost predicate ConnsGood(w: World) {
    && (forall c | c in w.conns :: c < w.nextConn)
    && (forall c, d | c in w.conns && d in w.conns && c != d :: w.conns[c] != w.conns[d])
    && (forall i | 0 <= i < |w.created| :: w.created[i].connId < w.nextConn)
    && (forall i, j | 0 <= i < j < |w.created| :: w.created[i].connId < w.created[j].connId)
    && (forall i | 0 <= i < |w.created| && w.created[i].connId in w.conns :: w.conns[w.created[i].connId] == w.created[i].alias)
  }

  ghost predicate Good(w: World) {
    RowsGood(w.rows) && DetectedGood(w.detections, |w.rows|) && CreatedGood(w) && ConnsGood(w)
  }

  lemma CreatedSticks(w: World, w': World)
    requires CreatedGood(w) && Sticks(w, w') && w'.created == w.created
    ensures CreatedGood(w')
  {
    forall i | 0 <= i < |w.created| && w.created[i].recorded ensures Settled(w', w.created[i].rowId) {
      assert Settled(w, w.created[i].rowId);
      assert RowKept(w.rows[w.created[i].rowId - 1], w'.rows[w.created[i].rowId - 1]);
    }
  }

  lemma SticksRefl(w: World)
    ensures Sticks(w, w)
  {
  }

  lemma SticksTrans(u: World, v: World, w: World)
    requires Sticks(u, v) && Sticks(v, w)
    ensures Sticks(u, w)
  {
    forall i | 0 <= i < |u.rows| ensures RowKept(u.rows[i], w.rows[i]) {
      assert RowKept(u.rows[i], v.rows[i]) && RowKept(v.rows[i], w.rows[i]);
    }
  }

  lemma EntryStepKeeps(w: World, f: Finding, now: int)
    requires Good(w)
    ensures Good(EntryStep(w, f, now)) && Sticks(w, EntryStep(w, f, now))
  {
    var w' := EntryStep(w, f, now);
    UpsertKeeps(w.rows, f, now);
    hide UpsertRows, RowsGood, RowKept;
    assert Sticks(w, w');
    CreatedSticks(w, w');
    hide Sticks, CreatedGood;
  }

  lemma UpsertKeeps(rows: seq<Row>, f: Finding, now: int)
    requires RowsGood(rows)
    ensures var (rows', u) := UpsertRows(rows, f.entry, now, f.fault);
            && RowsGood(rows') && |rows| <= |rows'|
            && (forall i | 0 <= i < |rows| :: RowKept(rows[i], rows'[i]))
            && (if u.Inserted? then |rows'| == |rows| + 1 && u.id == |rows'| else |rows'| == |rows|)
  {
    var rows' := UpsertRows(rows, f.entry, now, f.fault).0;
    forall i | 0 <= i < |rows| ensures RowKept(rows[i], rows'[i]) {}
  }

  lemma {:induction false} EntriesKeep(w: World, es: seq<Finding>, now: int)
    requires Good(w)
    ensures Good(Entries(w, es, now)) && Sticks(w, Entries(w, es, now))
  {
    hide Good, Sticks, EntryStep;
    SticksRefl(w);
    if es != [] {
      EntriesKeep(w, es[..|es| - 1], now);
      EntryStepKeeps(Entries(w, es[..|es| - 1], now), es[|es| - 1], now);
      SticksTrans(w, Entries(w, es[..|es| - 1], now), Entries(w, es, now));
    }
  }

  /** Rows changed one by one, as RowKept allows, with everything else the same. */
  lemma RowsRewritten(w: World, w': World)
    requires Good(w) && |w'.rows| == |w.rows| && w'.(rows := w.rows) == w
    requires forall i | 0 <= i < |w.rows| :: RowKept(w.rows[i], w'.rows[i])
    ensures Good(w') && Sticks(w, w')
  {
    hide RowKept;
    assert Sticks(w, w');
    CreatedSticks(w, w');
    hide Sticks, CreatedGood;
    assert RowsGood(w'.rows) by {
      assert forall i | 0 <= i < |w.rows| :: w'.rows[i].id == w.rows[i].id && w'.rows[i].source == w.rows[i].source
                                            && w'.rows[i].key == w.rows[i].key by { SameIdentity(w.rows, w'.rows); }
    }
  }

  lemma SameIdentity(rows: seq<Row>, rows': seq<Row>)
    requires |rows'| == |rows| && forall i | 0 <= i < |rows| :: RowKept(rows[i], rows'[i])
    ensures forall i | 0 <= i < |rows| :: rows'[i].id == rows[i].id && rows'[i].source == rows[i].source && rows'[i].key == rows[i].key
  {
  }

  lemma MarkKeeps(w: World, source: string, keys: seq<string>)
    requires Good(w)
    ensures Good(w.(rows := MarkRows(w.rows, source, keys))) && Sticks(w, w.(rows := MarkRows(w.rows, source, keys)))
  {
    var w' := w.(rows := MarkRows(w.rows, source, keys));
    forall i | 0 <= i < |w.rows| ensures RowKept(w.rows[i], w'.rows[i]) {
      assert w'.rows[i] == Lapse(w.rows[i], source, keys);
    }
    hide Good, Sticks, RowKept;
    RowsRewritten(w, w');
  }

  lemma {:induction false} PassKeeps(w: World, scans: seq<Scan>, now: int)
    requires Good(w)
    ensures Good(Pass(w, scans, now)) && Sticks(w, Pass(w, scans, now))
  {
    hide Good, Sticks, Entries;
    SticksRefl(w);
    if scans != [] {
      PassKeeps(w, scans[..|scans| - 1], now);
      var u := Pass(w, scans[..|scans| - 1], now);
      var scan := scans[|scans| - 1];
      if scan.Found? {
        EntriesKeep(u, scan.entries, now);
        var v := Entries(u, scan.entries, now);
        SticksTrans(w, u, v);
        if scan.markOk {
          MarkKeeps(v, scan.source, KeysOf(scan.entries));
          SticksTrans(w, v, Pass(w, scans, now));
        }
      }
    }
  }

  lemma ApproveSticks(w: World, id: nat, a: Approval, now: int)
    requires RowsGood(w.rows)
    ensures RowsGood(Approve(w, id, a, now).0.rows) && Sticks(w, Approve(w, id, a, now).0)
  {
    var w' := Approve(w, id, a, now).0;
    forall i | 0 <= i < |w.rows| ensures RowKept(w.rows[i], w'.rows[i]) {}
  }

  /** Recording one more connection, for a row that was still open. */
  lemma CreatedGrows(w: World, w': World, c: Created)
    requires CreatedGood(w) && Sticks(w, w') && w'.created == w.created + [c]
    requires 1 <= c.rowId <= |w.rows| && !Settled(w, c.rowId)
    requires c.recorded ==> Settled(w', c.rowId)
    ensures CreatedGood(w')
  {
    CreatedSticks(w, w'.(created := w.created));
    hide Sticks;
    forall i | 0 <= i < |w'.created| && w'.created[i].recorded ensures Settled(w', w'.created[i].rowId) {
      if i < |w.created| { assert Settled(w'.(created := w.created), w.created[i].rowId); }
    }
  }

  /** A new connection under a free alias. */
  lemma ConnGrows(w: World, alias: string)
    requires ConnsGood(w) && !Taken(w, alias)
    ensures ConnsGood(WithConn(w, alias))
  {
    var w' := WithConn(w, alias);
    forall c, d | c in w'.conns && d in w'.conns && c != d ensures w'.conns[c] != w'.conns[d] {
      assert c in w.conns ==> w.conns[c] in w.conns.Values;
      assert d in w.conns ==> w.conns[d] in w.conns.Values;
    }
  }

  lemma ApproveKeeps(w: World, id: nat, a: Approval, now: int)
    requires Good(w)
    ensures Good(Approve(w, id, a, now).0) && Sticks(w, Approve(w, id, a, now).0)
  {
    var w' := Approve(w, id, a, now).0;
    ApproveSticks(w, id, a, now);
    hide RowsGood, CreatedGood, Sticks;
    if w' != w {
      var alias := w.rows[id - 1].fields.alias;
      ConnGrows(w, alias);
      CreatedGrows(w, w', w'.created[|w.created|]);
      ConnLogged(w, w', alias);
    }
  }

  lemma ConnLogged(w: World, w': World, alias: string)
    requires ConnsGood(w) && ConnsGood(WithConn(w, alias))
    requires w'.conns == WithConn(w, alias).conns && w'.nextConn == w.nextConn + 1
    requires |w'.created| == |w.created| + 1 && w'.created[..|w.created|] == w.created
    requires w'.created[|w.created|].connId == w.nextConn && w'.created[|w.created|].alias == alias
    ensures ConnsGood(w')
  {
    assert forall i | 0 <= i < |w.created| :: w'.created[i] == w'.created[..|w.created|][i] == w.created[i];
  }

  lemma RejectKeeps(w: World, id: nat, ok: bool)
    requires Good(w)
    ensures Good(Reject(w, id, ok).0) && Sticks(w, Reject(w, id, ok).0)
  {
    var w' := Reject(w, id, ok).0;
    forall i | 0 <= i < |w.rows| ensures RowKept(w.rows[i], w'.rows[i]) {}
    hide Good, Sticks, RowKept;
    RowsRewritten(w, w');
  }

  lemma AddKeeps(w: World, alias: string, ok: bool)
    requires Good(w)
    ensures Good(AddConn(w, alias, ok)) && Sticks(w, AddConn(w, alias, ok))
  {
    var w' := AddConn(w, alias, ok);
    SticksRefl(w);
    if w' != w {
      hide RowsGood, Sticks, CreatedGood;
      ConnGrows(w, alias);
      assert Sticks(w, w') by { SticksSameRows(w, w'); }
      CreatedSticks(w, w');
    }
  }

  lemma SticksSameRows(w: World, w': World)
    requires w'.rows == w.rows
    ensures Sticks(w, w')
  {
  }

  lemma DeleteKeeps(w: World, conn: nat, ok: bool)
    requires Good(w)
    ensures Good(DeleteConn(w, conn, ok)) && Sticks(w, DeleteConn(w, conn, ok))
  {
    var w' := DeleteConn(w, conn, ok);
    SticksRefl(w);
    if w' != w {
      var v := w.(rows := UnlinkAll(w.rows, conn));
      forall i | 0 <= i < |w.rows| ensures RowKept(w.rows[i], v.rows[i]) {
        assert v.rows[i] == Unlink(w.rows[i], conn);
      }
      RowsRewritten(w, v);
      hide RowsGood, Sticks, RowKept;
      assert CreatedGood(w') by { assert forall i: nat :: Settled(w', i) == Settled(v, i); }
      assert Sticks(w, w') by { SticksSameRows(v, w'); SticksTrans(w, v, w'); }
    }
  }

  lemma StepKeeps(w: World, ev: Event)
    requires Good(w)
    ensures Good(Step(w, ev)) && Sticks(w, Step(w, ev))
  {
    hide Good, Sticks;
    match ev
    case Scanned(scans, now) => PassKeeps(w, scans, now);
    case ApproveAsked(id, a, now) => ApproveKeeps(w, id, a, now);
    case RejectAsked(id, ok) => RejectKeeps(w, id, ok);
    case ConnAdded(alias, ok) => AddKeeps(w, alias, ok);
    case ConnDeleted(conn, ok) => DeleteKeeps(w, conn, ok);
  }

  /** Over every run of scans, approvals, rejections and connection changes:
      rejected is permanent, approved can only become rejected, rows are unique
      and never vanish, each row has one turn at the audit log, connections have
      distinct aliases, and once an approval of a row has been written no further
      connection is created for it. */
  lemma {:induction false} DecisionsStick(w: World, evs: seq<Event>)
    requires Good(w)
    ensures Good(Play(w, evs)) && Sticks(w, Play(w, evs))
  {
    hide Good, Sticks, Step;
    SticksRefl(w);
    if evs != [] {
      DecisionsStick(w, evs[..|evs| - 1]);
      StepKeeps(Play(w, evs[..|evs| - 1]), evs[|evs| - 1]);
      SticksTrans(w, Play(w, evs[..|evs| - 1]), Play(w, evs));
    }
  }

  lemma EmptyIsGood()
    ensures Good(EMPTY)
  {
  }

  // ----- what the audit log says -----

  /** The rows with a discover.detected entry, one per entry. */
  function AuditLog(ds: seq<Detection>): seq<nat> {
    if ds == [] then []
    else AuditLog(ds[..|ds| - 1]) + if ds[|ds| - 1].written then [ds[|ds| - 1].rowId] else []
  }

  lemma {:induction false} AuditLogOf(ds: seq<Detection>)
    requires DetectedGood(ds, |ds|)
    ensures forall id :: id in AuditLog(ds) <==> 1 <= id <= |ds| && ds[id - 1].written
    ensures forall i, j | 0 <= i < j < |AuditLog(ds)| :: AuditLog(ds)[i] < AuditLog(ds)[j]
  {
    if ds != [] {
      var init := ds[..|ds| - 1];
      AuditLogOf(init);
      forall i | 0 <= i < |AuditLog(init)| ensures AuditLog(init)[i] <= |init| {
        assert AuditLog(init)[i] in AuditLog(init);
      }
    }
  }

  /** Over every run a row is audited as detected at most once, and exactly when
      the write at its insertion succeeded. */
  lemma DetectedAtMostOnce(evs: seq<Event>)
    ensures var w := Play(EMPTY, evs);
            && |w.detections| == |w.rows|
            && (forall id :: id in AuditLog(w.detections) <==> 1 <= id <= |w.rows| && w.detections[id - 1].written)
            && (forall i, j | 0 <= i < j < |AuditLog(w.detections)| :: AuditLog(w.detections)[i] != AuditLog(w.detections)[j])
  {
    EmptyIsGood();
    DecisionsStick(EMPTY, evs);
    AuditLogOf(Play(EMPTY, evs).detections);
  }

  // ----- one pass reconciles -----

  predicate Clean(f: Finding) {
    Acceptable(f.entry) && f.fault == NoFault
  }

  /** The last entry for a key that was stored without trouble. */
  function LastFor(es: seq<Finding>, key: string): Option<Fields> {
    if es == [] then None
    else
      var last := es[|es| - 1];
      if last.entry.key == key && Clean(last) then Some(last.entry.fields) else LastFor(es[..|es| - 1], key)
  }

  predicate Shows(r: Row, fields: Fields) {
    (r.status == Pending && r.fields == fields) || r.status == Approved || r.status == Rejected
  }

  /** What processing a scan's entries does to the rows of its source. */
  ghost predicate Applied(before: seq<Row>, after: seq<Row>, source: string, es: seq<Finding>) {
    && |before| <= |after|
    && (forall i | 0 <= i < |before| :: after[i].source == before[i].source && after[i].key == before[i].key)
    && (forall i | 0 <= i < |before| && before[i].source != source :: after[i] == before[i])
    && (forall i | |before| <= i < |after| :: after[i].source == source && LastFor(es, after[i].key).Some?)
    && (forall i | 0 <= i < |before| && LastFor(es, before[i].key).None? :: after[i] == before[i])
    && (forall i | 0 <= i < |after| && after[i].source == source && LastFor(es, after[i].key).Some? ::
          Shows(after[i], LastFor(es, after[i].key).value))
    && (forall key | LastFor(es, key).Some? :: Find(after, source, key).Some?)
  }

  /** A stored finding lands on the one row of its (source, key), at position k,
      which is new when k is past the end; nothing else changes. */
  ghost predicate Landed(rows: seq<Row>, after: seq<Row>, f: Finding, k: nat) {
    && k <= |rows| && |after| == (if k < |rows| then |rows| else |rows| + 1)
    && (forall i | 0 <= i < |rows| && i != k :: after[i] == rows[i])
    && (forall i | 0 <= i < |rows| :: i == k <==> rows[i].source == f.entry.source && rows[i].key == f.entry.key)
    && after[k].source == f.entry.source && after[k].key == f.entry.key && Shows(after[k], f.entry.fields)
  }

  function Spot(rows: seq<Row>, e: Entry): nat {
    match Find(rows, e.source, e.key)
    case None => |rows|
    case Some(i) => i
  }

  /** What one finding does to the rows. */
  lemma EntryEffect(rows: seq<Row>, f: Finding, now: int)
    requires RowsGood(rows)
    ensures Clean(f) ==> Landed(rows, UpsertRows(rows, f.entry, now, f.fault).0, f, Spot(rows, f.entry))
    ensures !Clean(f) ==> UpsertRows(rows, f.entry, now, f.fault).0 == rows
  {
    hide Find, Acceptable;
    var k := Spot(rows, f.entry);
    forall i | 0 <= i < |rows| ensures i == k <==> rows[i].source == f.entry.source && rows[i].key == f.entry.key {}
  }

  lemma FindSome(rows: seq<Row>, source: string, key: string, i: nat)
    requires i < |rows| && rows[i].source == source && rows[i].key == key
    ensures Find(rows, source, key).Some?
  {
    hide Find;
    var at := Find(rows, source, key);
  }

  lemma LastForSnoc(es: seq<Finding>, f: Finding)
    ensures forall key :: LastFor(es + [f], key) == if f.entry.key == key && Clean(f) then Some(f.entry.fields) else LastFor(es, key)
  {
    assert (es + [f])[..|es|] == es;
  }

  lemma AppliedLanded(before: seq<Row>, rows: seq<Row>, after: seq<Row>, source: string, es: seq<Finding>, f: Finding, k: nat)
    requires f.entry.source == source && Clean(f)
    requires Applied(before, rows, source, es) && Landed(rows, after, f, k)
    ensures Applied(before, after, source, es + [f])
  {
    LastForSnoc(es, f);
    hide Find, LastFor, Clean, Shows;
    forall key | LastFor(es + [f], key).Some? ensures Find(after, source, key).Some? {
      FindSome(after, source, key, if key == f.entry.key then k else Find(rows, source, key).value);
    }
  }

  lemma AppliedStep(w: World, source: string, es: seq<Finding>, f: Finding, now: int, before: seq<Row>)
    requires RowsGood(w.rows) && f.entry.source == source && Applied(before, w.rows, source, es)
    ensures Applied(before, EntryStep(w, f, now).rows, source, es + [f])
  {
    EntryEffect(w.rows, f, now);
    if Clean(f) {
      hide Landed, Applied;
      AppliedLanded(before, w.rows, EntryStep(w, f, now).rows, source, es, f, Spot(w.rows, f.entry));
    } else {
      LastForSnoc(es, f);
      hide Find, LastFor, Shows;
    }
  }

  lemma RowsOfGood(w: World)
    requires Good(w)
    ensures RowsGood(w.rows)
  {
  }

  lemma {:induction false} EntriesApply(w: World, source: string, es: seq<Finding>, now: int)
    requires Good(w) && forall f | f in es :: f.entry.source == source
    ensures Applied(w.rows, Entries(w, es, now).rows, source, es)
  {
    hide Good, EntryStep;
    if es == [] {
    } else {
      var init, last := es[..|es| - 1], es[|es| - 1];
      assert forall f | f in init :: f in es;
      assert last in es;
      EntriesApply(w, source, init, now);
      EntriesKeep(w, init, now);
      RowsOfGood(Entries(w, init, now));
      AppliedStep(Entries(w, init, now), source, init, last, now, w.rows);
      assert init + [last] == es;
    }
  }

  /** What a source's successful turn leaves: every entry stored without trouble
      has a row, which is pending with the last such entry's fields, or approved,
      or rejected; and, unless marking failed, its pending rows were all seen. */
  ghost predicate Reconciled(after: seq<Row>, scan: Scan)
    requires scan.Found?
  {
    && (scan.markOk ==> forall i | 0 <= i < |after| && after[i].source == scan.source && after[i].status == Pending ::
          after[i].key in KeysOf(scan.entries))
    && (forall key | LastFor(scan.entries, key).Some? :: Find(after, scan.source, key).Some?)
    && (forall i | 0 <= i < |after| && after[i].source == scan.source && LastFor(scan.entries, after[i].key).Some? ::
          Shows(after[i], LastFor(scan.entries, after[i].key).value))
  }

  lemma {:induction false} LastForIsSeen(es: seq<Finding>, key: string)
    ensures LastFor(es, key).Some? ==> key in KeysOf(es)
  {
    if es != [] {
      var init := es[..|es| - 1];
      LastForIsSeen(init, key);
      if key in KeysOf(init) {
        var i :| 0 <= i < |init| && KeysOf(init)[i] == key;
        assert KeysOf(es)[i] == key;
      }
      assert KeysOf(es)[|es| - 1] == es[|es| - 1].entry.key;
    }
  }

  lemma ScanReconciles(w: World, scan: Scan, now: int)
    requires Good(w) && scan.Found? && forall f | f in scan.entries :: f.entry.source == scan.source
    ensures Reconciled(ScanStep(w, scan, now).rows, scan)
  {
    var u := Entries(w, scan.entries, now);
    var v := ScanStep(w, scan, now);
    EntriesApply(w, scan.source, scan.entries, now);
    EntriesKeep(w, scan.entries, now);
    MarkKeeps(u, scan.source, KeysOf(scan.entries));
    forall i | 0 <= i < |v.rows| && v.rows[i].source == scan.source && LastFor(scan.entries, v.rows[i].key).Some?
      ensures Shows(v.rows[i], LastFor(scan.entries, v.rows[i].key).value)
    {
      LastForIsSeen(scan.entries, v.rows[i].key);
      if scan.markOk { assert v.rows[i] == Lapse(u.rows[i], scan.source, KeysOf(scan.entries)); }
    }
    forall key | LastFor(scan.entries, key).Some?
      ensures Find(v.rows, scan.source, key).Some?
    {
      FindSome(v.rows, scan.source, key, Find(u.rows, scan.source, key).value);
    }
  }

  /** A failed scan, or a scan of another source, leaves a source's rows alone. */
  lemma OtherSourceUntouched(w: World, scan: Scan, now: int, source: string)
    requires Good(w) && scan.source != source && (scan.Found? ==> forall f | f in scan.entries :: f.entry.source == scan.source)
    ensures var v := ScanStep(w, scan, now);
            |w.rows| <= |v.rows|
            && (forall i | 0 <= i < |w.rows| && w.rows[i].source == source :: v.rows[i] == w.rows[i])
            && (forall i | |w.rows| <= i < |v.rows| :: v.rows[i].source != source)
  {
    if scan.Found? {
      EntriesApply(w, scan.source, scan.entries, now);
    }
  }

  /** The rows of one source are the same in both tables, position by position. */
  ghost predicate SameRows(a: seq<Row>, b: seq<Row>, source: string) {
    && |a| <= |b|
    && (forall i | 0 <= i < |a| && a[i].source == source :: b[i] == a[i])
    && (forall i | 0 <= i < |a| && b[i].source == source :: b[i] == a[i])
    && (forall i | |a| <= i < |b| :: b[i].source != source)
  }

  ghost predicate WellWired(scans: seq<Scan>) {
    && (forall k | 0 <= k < |scans| && scans[k].Found? :: forall f | f in scans[k].entries :: f.entry.source == scans[k].source)
    && (forall k, l | 0 <= k < l < |scans| :: scans[k].source != scans[l].source)
  }

  lemma {:induction false} UnscannedUntouched(w: World, scans: seq<Scan>, now: int, source: string)
    requires Good(w) && WellWired(scans)
    requires forall k | 0 <= k < |scans| && scans[k].source == source :: scans[k].ScanFailed?
    ensures SameRows(w.rows, Pass(w, scans, now).rows, source)
  {
    hide Good, ScanStep;
    if scans != [] {
      var init, last := scans[..|scans| - 1], scans[|scans| - 1];
      UnscannedUntouched(w, init, now, source);
      PassKeeps(w, init, now);
      SameStep(Pass(w, init, now), last, now, source);
      SameTrans(w.rows, Pass(w, init, now).rows, Pass(w, scans, now).rows, source);
    }
  }

  lemma SameStep(w: World, scan: Scan, now: int, source: string)
    requires Good(w) && (scan.source == source ==> scan.ScanFailed?)
    requires scan.Found? ==> forall f | f in scan.entries :: f.entry.source == scan.source
    ensures SameRows(w.rows, ScanStep(w, scan, now).rows, source)
  {
    if scan.Found? {
      OtherSourceUntouched(w, scan, now, source);
      EntriesApply(w, scan.source, scan.entries, now);
    }
  }

  lemma SameTrans(a: seq<Row>, b: seq<Row>, c: seq<Row>, source: string)
    requires SameRows(a, b, source) && SameRows(b, c, source)
    ensures SameRows(a, c, source)
  {
  }

  /** Reconciled speaks of one source's rows only. */
  lemma ReconciledStays(mid: seq<Row>, after: seq<Row>, scan: Scan)
    requires scan.Found? && Reconciled(mid, scan) && SameRows(mid, after, scan.source)
    ensures Reconciled(after, scan)
  {
    hide Find, LastFor, Shows, KeysOf;
    forall key | LastFor(scan.entries, key).Some? ensures Find(after, scan.source, key).Some? {
      FindSome(after, scan.source, key, Find(mid, scan.source, key).value);
    }
    assert forall i | 0 <= i < |after| && after[i].source == scan.source :: i < |mid| && after[i] == mid[i];
  }

  lemma {:induction false} LaterScansKeep(w: World, scans: seq<Scan>, now: int, k: nat, n: nat)
    requires Good(w) && WellWired(scans) && k < n <= |scans|
    ensures SameRows(Pass(w, scans[..k + 1], now).rows, Pass(w, scans[..n], now).rows, scans[k].source)
    decreases n
  {
    hide Good, ScanStep;
    if n > k + 1 {
      LaterScansKeep(w, scans, now, k, n - 1);
      PassKeeps(w, scans[..n - 1], now);
      assert scans[..n][..n - 1] == scans[..n - 1];
      SameStep(Pass(w, scans[..n - 1], now), scans[n - 1], now, scans[k].source);
      SameTrans(Pass(w, scans[..k + 1], now).rows, Pass(w, scans[..n - 1], now).rows, Pass(w, scans[..n], now).rows, scans[k].source);
    }
  }

  /** A whole pass, with each source scanned at most once: when it is over, every
      source whose scan succeeded is reconciled, and every source whose scan
      failed, or that was not scanned, has its rows untouched. */
  lemma PassReconciles(w: World, scans: seq<Scan>, now: int, source: string)
    requires Good(w) && WellWired(scans)
    ensures forall k | 0 <= k < |scans| && scans[k].Found? :: Reconciled(Pass(w, scans, now).rows, scans[k])
    ensures (forall k | 0 <= k < |scans| && scans[k].source == source :: scans[k].ScanFailed?) ==>
              SameRows(w.rows, Pass(w, scans, now).rows, source)
  {
    hide Good, ScanStep, Reconciled, SameRows;
    if forall k | 0 <= k < |scans| && scans[k].source == source :: scans[k].ScanFailed? {
      UnscannedUntouched(w, scans, now, source);
    }
    forall k | 0 <= k < |scans| && scans[k].Found? ensures Reconciled(Pass(w, scans, now).rows, scans[k]) {
      PassKeeps(w, scans[..k], now);
      ScanReconciles(Pass(w, scans[..k], now), scans[k], now);
      assert scans[..k + 1][..k] == scans[..k] && scans[..|scans|] == scans;
      LaterScansKeep(w, scans, now, k, |scans|);
      ReconciledStays(Pass(w, scans[..k + 1], now).rows, Pass(w, scans, now).rows, scans[k]);
    }
  }
}
