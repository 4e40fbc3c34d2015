/** What single repository calls and handlers do, and what a pass reports. */
module DiscoveryCalls {
  import opened Base
  import opened Discovery
  import opened DiscoveryProps

  // ----- one call -----

  /** Upsert is refused exactly for an entry that is not acceptable, when its read
      fails, or when its write fails on a row that is new or still open. Otherwise
      the row of its source and key is there and was seen now, unless it was
      rejected or the write that says so failed; a new row is pending with the
      entry's fields; an open one becomes so, and keeps when it was made. */
  lemma UpsertRow(rows: seq<Row>, e: Entry, now: int, fault: Fault)
    requires RowsGood(rows)
    ensures var (after, u) := UpsertRows(rows, e, now, fault);
            var at := Find(rows, e.source, e.key);
            var decided := at.Some? && (rows[at.value].status == Approved || rows[at.value].status == Rejected);
            && (u.Refused? <==> !Acceptable(e) || fault == ReadFails || (fault == WriteFails && !decided))
            && (u.Refused? ==> after == rows)
            && (u.Inserted? <==> !u.Refused? && at.None?)
            && (!u.Refused? ==>
                  var k := if at.Some? then at.value else |rows|;
                  && |after| == (if at.Some? then |rows| else |rows| + 1) && u.id == k + 1
                  && (forall i | 0 <= i < |rows| && i != k :: after[i] == rows[i])
                  && after[k].id == k + 1 && after[k].source == e.source && after[k].key == e.key
                  && (at.Some? ==> after[k].createdAt == rows[k].createdAt && after[k].approvedConn == rows[k].approvedConn)
                  && (at.None? ==> after[k].createdAt == now && after[k].approvedConn == None)
                  && (!decided ==> after[k].status == Pending && after[k].fields == e.fields && after[k].lastSeen == now)
                  && (decided ==> after[k].status == rows[k].status && after[k].fields == rows[k].fields
                                  && after[k].lastSeen == (if rows[k].status == Approved && fault == NoFault then now else rows[k].lastSeen)))
  {
    hide Find, Acceptable;
  }

  /** The entries Upsert accepts. */
  lemma AcceptableIff(e: Entry)
    ensures Acceptable(e) <==>
              && (e.fields.tag == "local" || e.fields.tag == "dev" || e.fields.tag == "staging" || e.fields.tag == "production")
              && (e.source == "env" || e.source == "docker")
              && |e.fields.alias| > 0 && |e.fields.host| > 0 && |e.key| > 0
              && 1 <= e.fields.port <= 65535
  {
  }

  /** Only a rejection that is carried out is answered Done: the row is then
      rejected, and nothing else has changed; any other answer changes nothing. */
  lemma RejectDone(w: World, id: nat, dbOk: bool)
    ensures var (w', reply) := Reject(w, id, dbOk);
            && (reply == Done <==> 1 <= id <= |w.rows| && dbOk)
            && (reply == NotFound <==> !(1 <= id <= |w.rows|))
            && (reply == Done ==>
                  && w'.(rows := w.rows) == w && |w'.rows| == |w.rows|
                  && w'.rows[id - 1].status == Rejected && w'.rows[id - 1].(status := w.rows[id - 1].status) == w.rows[id - 1]
                  && forall i | 0 <= i < |w.rows| && i != id - 1 :: w'.rows[i] == w.rows[i])
            && (reply != Done ==> w' == w)
  {
  }

  /** What each answer to an approval means: only Done leaves the row approved, and
      linked to a new connection under its alias; no answer changes another row;
      a connection is left behind without its row when the mark failed. */
  lemma ApproveReply(w: World, id: nat, a: Approval, now: int)
    requires Good(w)
    ensures var (w', reply) := Approve(w, id, a, now);
            && (reply == NotFound <==> !(1 <= id <= |w.rows|))
            && (reply == Conflict <==> Settled(w, id))
            && (reply == PassphraseRequired <==> Open(w, id) && w.rows[id - 1].fields.tag == "production" && !a.passphrase)
            && (reply == Done ==>
                  && Open(w, id) && |w'.rows| == |w.rows|
                  && w'.rows[id - 1] == w.rows[id - 1].(status := Approved, approvedConn := w'.rows[id - 1].approvedConn, lastSeen := now)
                  && w'.rows[id - 1].approvedConn.Some? && w'.rows[id - 1].approvedConn.value !in w.conns
                  && w'.conns == w.conns[w'.rows[id - 1].approvedConn.value := w.rows[id - 1].fields.alias]
                  && forall i | 0 <= i < |w.rows| && i != id - 1 :: w'.rows[i] == w.rows[i])
            && (reply != Done ==> w'.rows == w.rows)
            && (reply != Done && reply != Failed ==> w' == w)
            && (w'.conns != w.conns && reply != Done ==> reply == Failed && !a.markOk)
  {
    hide RowsGood, CreatedGood, DetectedGood;
  }

  /** A connection added by hand needs a name not yet used; deleting one unlinks the
      row that points to it, and leaves every row's status as it was. */
  lemma ByHand(w: World, alias: string, conn: nat, ok: bool)
    requires Good(w)
    ensures var w' := AddConn(w, alias, ok);
            w'.rows == w.rows && w'.conns == (if ok && alias != "" && alias !in w.conns.Values then w.conns[w.nextConn := alias] else w.conns)
    ensures var w' := DeleteConn(w, conn, ok);
            && conn in w.conns && ok ==>
               conn !in w'.conns && |w'.rows| == |w.rows|
               && forall i | 0 <= i < |w.rows| ::
                    && w'.rows[i].status == w.rows[i].status && w'.rows[i].fields == w.rows[i].fields
                    && w'.rows[i].approvedConn == if w.rows[i].approvedConn == Some(conn) then None else w.rows[i].approvedConn
    ensures !ok ==> DeleteConn(w, conn, ok) == w
  {
    hide RowsGood, CreatedGood, DetectedGood;
  }

  // ----- what a pass reports -----

  predicate DecidedAt(rows: seq<Row>, source: string, key: string) {
    var at := Find(rows, source, key);
    at.Some? && (rows[at.value].status == Approved || rows[at.value].status == Rejected)
  }

  /** The finding can be stored: it is acceptable, its read works, and so does its
      write, or its row is decided and the write does not matter. */
  predicate Storable(rows: seq<Row>, f: Finding) {
    Acceptable(f.entry) && f.fault != ReadFails && (f.fault == WriteFails ==> DecidedAt(rows, f.entry.source, f.entry.key))
  }

  ghost function StorableIn(rows: seq<Row>, es: seq<Finding>): set<nat> {
    set i: nat | i < |es| && Storable(rows, es[i])
  }

  lemma AlikeFinds(a: seq<Row>, b: seq<Row>, source: string, key: string)
    requires RowsGood(a) && RowsGood(b) && |a| <= |b| && forall i | 0 <= i < |a| :: b[i].source == a[i].source && b[i].key == a[i].key
    ensures Find(a, source, key).Some? ==> Find(b, source, key) == Find(a, source, key)
  {
    hide Find;
    var at := Find(a, source, key);
    if at.Some? { FindSome(b, source, key, at.value); }
  }

  /** A scan decides nothing and undoes no decision. */
  lemma DecidedAfter(rows: seq<Row>, f: Finding, now: int, source: string, key: string)
    requires RowsGood(rows) && RowsGood(UpsertRows(rows, f.entry, now, f.fault).0)
    ensures DecidedAt(UpsertRows(rows, f.entry, now, f.fault).0, source, key) <==> DecidedAt(rows, source, key)
  {
    var after := UpsertRows(rows, f.entry, now, f.fault).0;
    UpsertRow(rows, f.entry, now, f.fault);
    hide Acceptable, Find, UpsertRows;
    AlikeFinds(rows, after, source, key);
  }

  lemma {:induction false} DecidedAfterAll(w: World, es: seq<Finding>, now: int, source: string, key: string)
    requires Good(w)
    ensures DecidedAt(Entries(w, es, now).rows, source, key) <==> DecidedAt(w.rows, source, key)
  {
    hide Good, DecidedAt, UpsertRows;
    if es != [] {
      var init, last := es[..|es| - 1], es[|es| - 1];
      DecidedAfterAll(w, init, now, source, key);
      EntriesKeep(w, init, now);
      EntriesKeep(w, es, now);
      RowsOfGood(Entries(w, init, now));
      RowsOfGood(Entries(w, es, now));
      DecidedAfter(Entries(w, init, now).rows, last, now, source, key);
    }
  }

  lemma RefusedIff(w: World, es: seq<Finding>, f: Finding, now: int)
    requires Good(w)
    ensures UpsertRows(Entries(w, es, now).rows, f.entry, now, f.fault).1.Refused? <==> !Storable(w.rows, f)
  {
    EntriesKeep(w, es, now);
    RowsOfGood(Entries(w, es, now));
    UpsertRow(Entries(w, es, now).rows, f.entry, now, f.fault);
    DecidedAfterAll(w, es, now, f.entry.source, f.entry.key);
    hide Good, Acceptable, UpsertRows, Find;
  }

  /** The count a source's turn adds is the number of its findings that can be
      stored, told from the rows before the turn. */
  lemma {:induction false} StoredCounts(w: World, es: seq<Finding>, now: int)
    requires Good(w)
    ensures Stored(w, es, now) == |StorableIn(w.rows, es)|
  {
    hide Good, Storable, UpsertRows, Entries;
    if es == [] {
      assert StorableIn(w.rows, es) == {};
    } else {
      var init, last := es[..|es| - 1], es[|es| - 1];
      StoredCounts(w, init, now);
      RefusedIff(w, init, last, now);
      assert StorableIn(w.rows, es) == StorableIn(w.rows, init) + if Storable(w.rows, last) then {|init|} else {};
    }
  }

  /** A storable finding leaves a row under its key. */
  lemma {:induction false} StoredHasRow(w: World, es: seq<Finding>, now: int, i: nat)
    requires Good(w) && i < |es| && Storable(w.rows, es[i])
    ensures Find(Entries(w, es, now).rows, es[i].entry.source, es[i].entry.key).Some?
    decreases |es|
  {
    hide *;
    var init, last := es[..|es| - 1], es[|es| - 1];
    LastEntry(w, es, now);
    EntriesKeep(w, init, now);
    RowsOfGood(Entries(w, init, now));
    if i < |init| {
      StoredHasRow(w, init, now, i);
      KeyStays(Entries(w, init, now).rows, last, now, es[i].entry.source, es[i].entry.key);
    } else {
      RefusedIff(w, init, last, now);
      KeyIsThere(Entries(w, init, now).rows, last, now);
    }
  }

  lemma LastEntry(w: World, es: seq<Finding>, now: int)
    requires es != []
    ensures var last := es[|es| - 1];
            Entries(w, es, now).rows == UpsertRows(Entries(w, es[..|es| - 1], now).rows, last.entry, now, last.fault).0
  {
    hide UpsertRows;
  }

  lemma KeyStays(rows: seq<Row>, f: Finding, now: int, source: string, key: string)
    requires RowsGood(rows) && Find(rows, source, key).Some?
    ensures Find(UpsertRows(rows, f.entry, now, f.fault).0, source, key).Some?
  {
    UpsertRow(rows, f.entry, now, f.fault);
    hide Acceptable, UpsertRows, Find, RowsGood;
    FindSome(UpsertRows(rows, f.entry, now, f.fault).0, source, key, Find(rows, source, key).value);
  }

  lemma KeyIsThere(rows: seq<Row>, f: Finding, now: int)
    requires RowsGood(rows) && !UpsertRows(rows, f.entry, now, f.fault).1.Refused?
    ensures Find(UpsertRows(rows, f.entry, now, f.fault).0, f.entry.source, f.entry.key).Some?
  {
    UpsertRow(rows, f.entry, now, f.fault);
    hide Acceptable, UpsertRows, Find, RowsGood;
    var at := Find(rows, f.entry.source, f.entry.key);
    FindSome(UpsertRows(rows, f.entry, now, f.fault).0, f.entry.source, f.entry.key, if at.Some? then at.value else |rows|);
  }

  /** Over the sources whose scan succeeded, the findings that could be stored when
      their turn came. */
  ghost function Total(w: World, scans: seq<Scan>, now: int, n: nat): nat
    requires n <= |scans|
  {
    if n == 0 then 0
    else
      Total(w, scans, now, n - 1)
      + if scans[n - 1].Found? then |StorableIn(Pass(w, scans[..n - 1], now).rows, scans[n - 1].entries)| else 0
  }

  /** That is what a whole pass reports. */
  lemma {:induction false} PassCounts(w: World, scans: seq<Scan>, now: int)
    requires Good(w)
    ensures PassStored(w, scans, now) == Total(w, scans, now, |scans|)
  {
    hide Stored, Pass;
    if scans != [] {
      var init := scans[..|scans| - 1];
      PassCounts(w, init, now);
      TotalPrefix(w, scans, now, |init|);
      PassKeeps(w, init, now);
      if scans[|init|].Found? { StoredCounts(Pass(w, init, now), scans[|init|].entries, now); }
    }
  }

  lemma {:induction false} TotalPrefix(w: World, scans: seq<Scan>, now: int, n: nat)
    requires scans != [] && n <= |scans| - 1
    ensures Total(w, scans, now, n) == Total(w, scans[..|scans| - 1], now, n)
  {
    hide Pass, StorableIn;
    if n > 0 {
      TotalPrefix(w, scans, now, n - 1);
      assert scans[..|scans| - 1][..n - 1] == scans[..n - 1];
    }
  }
}
