/** How many connections a discovered row yields. The handler creates the
    connection, then marks the row; a mark that fails leaves the row open, and
    what stands in the way of a second connection is the unique alias. */
module DiscoveryConns {
  import opened Base
  import opened Discovery
  import opened DiscoveryProps

  // ----- one approval -----

  predicate Supplied(r: Row, a: Approval) {
    (r.fields.tag == "production" ==> a.passphrase) && a.revealOk && a.createOk
  }

  predicate Creates(w: World, id: nat, a: Approval, now: int) {
    |Approve(w, id, a, now).0.created| > |w.created|
  }

  /** An approval makes a connection exactly when the row is open, everything was
      supplied and no connection has the row's alias. */
  lemma CreatesIff(w: World, id: nat, a: Approval, now: int)
    ensures Creates(w, id, a, now) <==> Open(w, id) && Supplied(w.rows[id - 1], a) && !Taken(w, w.rows[id - 1].fields.alias)
  {
  }

  /** After an earlier connection from the row, with everything supplied and no
      third connection in the way, another is made exactly when the row is still
      open and the earlier connection is gone or the row's alias is no longer its
      alias; and then the earlier mark had failed. */
  lemma AnotherIff(w: World, id: nat, a: Approval, now: int, i: nat)
    requires Good(w) && i < |w.created| && w.created[i].rowId == id && Supplied(w.rows[id - 1], a)
    requires forall c | c in w.conns && w.conns[c] == w.rows[id - 1].fields.alias :: c == w.created[i].connId
    ensures Creates(w, id, a, now) <==>
              Open(w, id) && (w.created[i].connId !in w.conns || w.rows[id - 1].fields.alias != w.created[i].alias)
    ensures Creates(w, id, a, now) ==> !w.created[i].recorded
  {
    CreatesIff(w, id, a, now);
    var alias, conn := w.rows[id - 1].fields.alias, w.created[i].connId;
    hide Approve, Creates;
    if conn in w.conns {
      assert w.conns[conn] in w.conns.Values;
    }
    if Taken(w, alias) {
      var c :| c in w.conns.Keys && w.conns[c] == alias;
    }
    assert w.created[i].recorded ==> Settled(w, id);
  }

  // ----- whole runs -----

  function At(evs: seq<Event>, k: nat): World
    requires k <= |evs|
  {
    Play(EMPTY, evs[..k])
  }

  lemma AtStep(evs: seq<Event>, k: nat)
    requires k < |evs|
    ensures At(evs, k + 1) == Step(At(evs, k), evs[k])
  {
    assert evs[..k + 1][..k] == evs[..k];
  }

  lemma AtGood(evs: seq<Event>, k: nat)
    requires k <= |evs|
    ensures Good(At(evs, k))
  {
    EmptyIsGood();
    DecisionsStick(EMPTY, evs[..k]);
  }

  /** From an empty table: a connection whose row was then marked is the last one
      made for that row. */
  lemma OneConnectionPerRow(evs: seq<Event>, i: nat, j: nat)
    requires i < j < |Play(EMPTY, evs).created| && Play(EMPTY, evs).created[i].recorded
    ensures Play(EMPTY, evs).created[i].rowId != Play(EMPTY, evs).created[j].rowId
  {
    EmptyIsGood();
    DecisionsStick(EMPTY, evs);
  }

  lemma {:induction false} PassKeepsConns(w: World, scans: seq<Scan>, now: int)
    ensures Pass(w, scans, now).conns == w.conns && Pass(w, scans, now).created == w.created
  {
    if scans != [] {
      var init, scan := scans[..|scans| - 1], scans[|scans| - 1];
      PassKeepsConns(w, init, now);
      if scan.Found? { EntriesKeepConns(Pass(w, init, now), scan.entries, now); }
    }
  }

  lemma {:induction false} EntriesKeepConns(w: World, es: seq<Finding>, now: int)
    ensures Entries(w, es, now).conns == w.conns && Entries(w, es, now).created == w.created
  {
    if es != [] { EntriesKeepConns(w, es[..|es| - 1], now); }
  }

  /** Only an approval adds to the connections made, one at a time. */
  lemma CreatedStep(w: World, ev: Event)
    ensures w.created <= Step(w, ev).created
    ensures Step(w, ev).created != w.created ==>
              ev.ApproveAsked? && Creates(w, ev.id, ev.approval, ev.now)
              && Step(w, ev).created == w.created + [Created(ev.id, w.nextConn, w.rows[ev.id - 1].fields.alias, ev.approval.markOk)]
              && w.nextConn in Step(w, ev).conns && |Step(w, ev).rows| == |w.rows|
              && Step(w, ev).rows[ev.id - 1].fields == w.rows[ev.id - 1].fields
  {
    if ev.Scanned? { PassKeepsConns(w, ev.scans, ev.now); }
  }

  lemma {:induction false} CreatedOnlyGrows(evs: seq<Event>, m: nat, n: nat)
    requires m <= n <= |evs|
    ensures At(evs, m).created <= At(evs, n).created
  {
    hide Step, At;
    if m < n {
      CreatedOnlyGrows(evs, m, n - 1);
      AtStep(evs, n - 1);
      CreatedStep(At(evs, n - 1), evs[n - 1]);
    }
  }

  /** The connection exists and the row still has the alias it was made under. */
  predicate Blocks(w: World, id: nat, conn: nat, alias: string) {
    1 <= id <= |w.rows| && conn in w.conns && w.rows[id - 1].fields.alias == alias
  }

  predicate Deleted(evs: seq<Event>, m: nat, conn: nat)
    requires m < |evs|
  {
    evs[m] == ConnDeleted(conn, true) && conn in At(evs, m).conns
  }

  predicate Renamed(evs: seq<Event>, m: nat, id: nat)
    requires m < |evs|
  {
    evs[m].Scanned? && 1 <= id <= |At(evs, m).rows| <= |At(evs, m + 1).rows|
    && At(evs, m + 1).rows[id - 1].fields.alias != At(evs, m).rows[id - 1].fields.alias
  }

  lemma BlockEnds(w: World, ev: Event, id: nat, conn: nat, alias: string)
    requires Good(w) && Blocks(w, id, conn, alias) && !Blocks(Step(w, ev), id, conn, alias)
    ensures |w.rows| <= |Step(w, ev).rows|
    ensures ev == ConnDeleted(conn, true) || (ev.Scanned? && Step(w, ev).rows[id - 1].fields.alias != w.rows[id - 1].fields.alias)
  {
    StepKeeps(w, ev);
    hide Good;
    if ev.Scanned? { PassKeepsConns(w, ev.scans, ev.now); }
    if ev.ConnDeleted? && Step(w, ev) != w { assert Step(w, ev).rows[id - 1] == Unlink(w.rows[id - 1], ev.conn); }
  }

  lemma {:induction false} BlockEndsBetween(evs: seq<Event>, a: nat, b: nat, id: nat, conn: nat, alias: string) returns (m: nat)
    requires a <= b <= |evs|
    requires Blocks(At(evs, a), id, conn, alias) && !Blocks(At(evs, b), id, conn, alias)
    ensures a <= m < b && (Deleted(evs, m, conn) || Renamed(evs, m, id))
    decreases b - a
  {
    hide At, Step;
    AtStep(evs, a);
    if Blocks(At(evs, a + 1), id, conn, alias) {
      m := BlockEndsBetween(evs, a + 1, b, id, conn, alias);
    } else {
      AtGood(evs, a);
      BlockEnds(At(evs, a), evs[a], id, conn, alias);
      m := a;
    }
  }

  /** The j-th connection made is made by event k. */
  predicate MadeAt(evs: seq<Event>, k: nat, j: nat)
    requires k < |evs|
  {
    |At(evs, k).created| == j && |At(evs, k + 1).created| == j + 1
  }

  /** Over every run: a row gets a second connection only after its earlier mark
      failed and, since then, the earlier connection was deleted or a rescan
      changed the row's alias. */
  lemma SecondConnectionCause(evs: seq<Event>, k: nat, l: nat, i: nat, j: nat) returns (m: nat)
    requires k < l < |evs| && MadeAt(evs, k, i) && MadeAt(evs, l, j)
    requires i < j && At(evs, l + 1).created[i].rowId == At(evs, l + 1).created[j].rowId
    ensures var c := At(evs, l + 1).created[i];
            !c.recorded && k < m < l && (Deleted(evs, m, c.connId) || Renamed(evs, m, c.rowId))
  {
    hide At, Step, Creates;
    AtStep(evs, k);
    AtStep(evs, l);
    CreatedStep(At(evs, k), evs[k]);
    CreatedStep(At(evs, l), evs[l]);
    CreatedOnlyGrows(evs, k + 1, l);
    var c := At(evs, l + 1).created[i];
    assert At(evs, l).created[i] == c == At(evs, k + 1).created[i];
    AtGood(evs, l);
    AtGood(evs, k);
    AtGood(evs, l + 1);
    CreatesIff(At(evs, k), evs[k].id, evs[k].approval, evs[k].now);
    CreatesIff(At(evs, l), evs[l].id, evs[l].approval, evs[l].now);
    assert !Blocks(At(evs, l), c.rowId, c.connId, c.alias) by {
      NotBlocked(At(evs, l), i);
    }
    assert Blocks(At(evs, k + 1), c.rowId, c.connId, c.alias);
    m := BlockEndsBetween(evs, k + 1, l, c.rowId, c.connId, c.alias);
  }

  /** An existing connection of the row, under the row's alias, takes that alias. */
  lemma NotBlocked(w: World, i: nat)
    requires Good(w) && i < |w.created| && !Taken(w, w.rows[w.created[i].rowId - 1].fields.alias)
    ensures !Blocks(w, w.created[i].rowId, w.created[i].connId, w.created[i].alias)
  {
    var c := w.created[i];
    assert c.connId in w.conns ==> w.conns[c.connId] in w.conns.Values;
  }

  // ----- runs in which it happens -----

  const MARK_FAILS := Approval(true, true, true, false)
  const ALL_WELL := Approval(true, true, true, true)


  function Scans(e: Entry): seq<Scan> {
    [Found(e.source, [Finding(e, NoFault, true)], true)]
  }

  /** A first scan of an entry makes its row. */
  lemma FirstScan(e: Entry, now: int)
    requires Acceptable(e)
    ensures Pass(EMPTY, Scans(e), now)
            == EMPTY.(rows := [Row(1, e.source, e.key, e.fields, Pending, now, now, None)], detections := [Detection(1, true)])
  {
    OneScan(EMPTY, e, now);
    MarkSeen(UpsertRows(EMPTY.rows, e, now, NoFault).0, e);
  }

  lemma OneScan(w: World, e: Entry, now: int)
    ensures Pass(w, Scans(e), now) == var v := EntryStep(w, Finding(e, NoFault, true), now);
              v.(rows := MarkRows(v.rows, e.source, [e.key]))
  {
    hide EntryStep, MarkRows, KeysOf;
    var f := Finding(e, NoFault, true);
    OneKey(f);
    OneEntry(w, f, now);
    hide Entries;
    assert Scans(e)[..0] == [];
    assert Pass(w, [], now) == w;
    assert Pass(w, Scans(e), now) == ScanStep(w, Scans(e)[0], now);
  }

  lemma OneKey(f: Finding)
    ensures KeysOf([f]) == [f.entry.key]
  {
    EmptyKeys();
    KeysSnoc([], f);
    assert [] + [f] == [f];
  }

  lemma OneEntry(w: World, f: Finding, now: int)
    ensures Entries(w, [f], now) == EntryStep(w, f, now)
  {
    hide EntryStep;
    assert [f][..0] == [] && Entries(w, [], now) == w;
  }

  lemma MarkSeen(rows: seq<Row>, e: Entry)
    requires |rows| == 1 && rows[0].key == e.key
    ensures MarkRows(rows, e.source, [e.key]) == rows
  {
  }

  /** Scanned, approved with a failing mark, rescanned under another alias and
      approved again: two connections from one row. */
  lemma DoubledByRescan(e: Entry, e': Entry, now: int)
    requires Acceptable(e) && Acceptable(e') && e'.source == e.source && e'.key == e.key
    requires e'.fields.alias != e.fields.alias
    ensures Play(EMPTY, [Scanned(Scans(e), now), ApproveAsked(1, MARK_FAILS, now),
                         Scanned(Scans(e'), now), ApproveAsked(1, ALL_WELL, now)]).created
            == [Created(1, 1, e.fields.alias, false), Created(1, 2, e'.fields.alias, true)]
  {
    FirstScan(e, now);
    hide Pass, EntryStep, MarkRows, Acceptable;
    var one := EMPTY.(rows := [Row(1, e.source, e.key, e.fields, Pending, now, now, None)], detections := [Detection(1, true)]);
    var two := one.(conns := map[1 := e.fields.alias], nextConn := 2, created := [Created(1, 1, e.fields.alias, false)]);
    assert Approve(one, 1, MARK_FAILS, now).0 == two;
    var three := two.(rows := [Row(1, e.source, e.key, e'.fields, Pending, now, now, None)]);
    Rescanned(two, e', now);
    assert Pass(two, Scans(e'), now) == three;
    assert e'.fields.alias !in three.conns.Values;
    FourEvents(EMPTY, Scanned(Scans(e), now), ApproveAsked(1, MARK_FAILS, now), Scanned(Scans(e'), now), ApproveAsked(1, ALL_WELL, now));
  }

  lemma Rescanned(w: World, e: Entry, now: int)
    requires Acceptable(e) && |w.rows| == 1 && w.rows[0].source == e.source && w.rows[0].key == e.key && w.rows[0].status == Pending
    ensures Pass(w, Scans(e), now) == w.(rows := [Refreshed(w.rows[0], e, now)])
  {
    OneScan(w, e, now);
    assert Find(w.rows, e.source, e.key) == Some(0);
    assert w.rows[0 := Refreshed(w.rows[0], e, now)] == [Refreshed(w.rows[0], e, now)];
    assert UpsertRows(w.rows, e, now, NoFault) == ([Refreshed(w.rows[0], e, now)], Kept(w.rows[0].id));
    MarkSeen([Refreshed(w.rows[0], e, now)], e);
  }

  lemma FourEvents(w: World, a: Event, b: Event, c: Event, d: Event)
    ensures Play(w, [a, b, c, d]) == Step(Step(Step(Step(w, a), b), c), d)
  {
    hide Step;
    assert [a, b, c, d][..3] == [a, b, c] && [a, b, c][..2] == [a, b] && [a, b][..1] == [a] && [a][..0] == [];
    assert Play(w, [a]) == Step(Play(w, []), a);
    assert Play(w, [a, b]) == Step(Play(w, [a]), b);
    assert Play(w, [a, b, c]) == Step(Play(w, [a, b]), c);
  }

  /** Scanned, approved with a failing mark, the connection deleted and the row
      approved again: two connections from one row, under one alias. */
  lemma DoubledByDeletion(e: Entry, now: int)
    requires Acceptable(e)
    ensures Play(EMPTY, [Scanned(Scans(e), now), ApproveAsked(1, MARK_FAILS, now),
                         ConnDeleted(1, true), ApproveAsked(1, ALL_WELL, now)]).created
            == [Created(1, 1, e.fields.alias, false), Created(1, 2, e.fields.alias, true)]
  {
    FirstScan(e, now);
    hide Pass, Acceptable;
    var one := EMPTY.(rows := [Row(1, e.source, e.key, e.fields, Pending, now, now, None)], detections := [Detection(1, true)]);
    var two := one.(conns := map[1 := e.fields.alias], nextConn := 2, created := [Created(1, 1, e.fields.alias, false)]);
    assert Approve(one, 1, MARK_FAILS, now).0 == two;
    assert UnlinkAll(two.rows, 1) == two.rows && map[1 := e.fields.alias] - {1} == map[];
    var three := two.(conns := map[]);
    assert DeleteConn(two, 1, true) == three;
    assert e.fields.alias !in three.conns.Values;
    FourEvents(EMPTY, Scanned(Scans(e), now), ApproveAsked(1, MARK_FAILS, now), ConnDeleted(1, true), ApproveAsked(1, ALL_WELL, now));
  }

  /** With neither in between, the second approval finds the alias taken. */
  lemma RetryIsRefused(e: Entry, now: int)
    requires Acceptable(e)
    ensures var w := Play(EMPTY, [Scanned(Scans(e), now), ApproveAsked(1, MARK_FAILS, now)]);
            Approve(w, 1, ALL_WELL, now) == (w, AliasTaken)
  {
    FirstScan(e, now);
    hide Pass, Acceptable;
    var one := EMPTY.(rows := [Row(1, e.source, e.key, e.fields, Pending, now, now, None)], detections := [Detection(1, true)]);
    var two := one.(conns := map[1 := e.fields.alias], nextConn := 2, created := [Created(1, 1, e.fields.alias, false)]);
    assert Approve(one, 1, MARK_FAILS, now).0 == two;
    assert two.conns[1] in two.conns.Values;
    var a, b := Scanned(Scans(e), now), ApproveAsked(1, MARK_FAILS, now);
    assert [a, b][..1] == [a] && [a][..0] == [];
    assert Play(EMPTY, [a]) == Step(Play(EMPTY, []), a);
    assert Play(EMPTY, [a, b]) == Step(Play(EMPTY, [a]), b);
  }
}
