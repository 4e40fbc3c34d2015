/** The discovery repository, statement by statement. Upsert reads its row and
    later writes it by id, without looking at the status again
    (internal/store/discovered.go:123, :145); the approval handler reads the row,
    makes the connection and marks the row
    (internal/server/handlers/discover.go:106, :135, :155). Calls interleave
    between their statements, and decisions can be undone. */
module DiscoveryRaces {
  import opened Base
  import opened Discovery

  /** A call between its statements. */
  datatype Flight =
    | Refresh(id: nat, entry: Entry)
    | Touch(id: nat)
    | Insert(entry: Entry)
    // The alias is the one read; the connection, the one made.
    | Approving(id: nat, alias: string)
    | Marking(id: nat, conn: nat)

  datatype Shared = Shared(rows: seq<Row>, conns: map<nat, string>, nextConn: nat, flights: map<nat, Flight>)

  datatype Stmt =
    | UpsertRead(t: nat, entry: Entry)
    | UpsertWrite(t: nat, now: int, ok: bool)
    | ApproveRead(t: nat, id: nat)
    | ConnInsert(t: nat, ok: bool)
    | ApproveMark(t: nat, now: int, ok: bool)
    // Single statements: the rejection, the guarded update of unseen rows, and
    // connections by hand.
    | RejectWrite(id: nat, ok: bool)
    | LapseWrite(source: string, keys: seq<string>, ok: bool)
    | ConnAdd(alias: string, ok: bool)
    | ConnDelete(conn: nat, ok: bool)

  predicate Has(s: Shared, id: nat) {
    1 <= id <= |s.rows|
  }

  predicate OpenRow(s: Shared, id: nat) {
    Has(s, id) && (s.rows[id - 1].status == Pending || s.rows[id - 1].status == Unreachable)
  }

  predicate Decided(s: Shared, id: nat) {
    Has(s, id) && (s.rows[id - 1].status == Approved || s.rows[id - 1].status == Rejected)
  }

  predicate RejectedRow(s: Shared, id: nat) {
    Has(s, id) && s.rows[id - 1].status == Rejected
  }

  predicate ApprovedRow(s: Shared, id: nat) {
    Has(s, id) && s.rows[id - 1].status == Approved
  }

  predicate By(st: Stmt, t: nat) {
    (st.UpsertRead? || st.UpsertWrite? || st.ApproveRead? || st.ConnInsert? || st.ApproveMark?) && st.t == t
  }

  /** alias TEXT UNIQUE */
  predicate Free(s: Shared, alias: string) {
    alias !in s.conns.Values
  }

  predicate Enabled(s: Shared, st: Stmt) {
    match st
    case UpsertRead(t, e) => t !in s.flights && Acceptable(e)
    case UpsertWrite(t, _, _) => t in s.flights && (s.flights[t].Refresh? || s.flights[t].Touch? || s.flights[t].Insert?)
    // Anything but an open row ends the approval there.
    case ApproveRead(t, id) => t !in s.flights && OpenRow(s, id)
    case ConnInsert(t, _) => t in s.flights && s.flights[t].Approving?
    case ApproveMark(t, _, _) => t in s.flights && s.flights[t].Marking?
    case _ => true
  }

  /** UPDATE ... WHERE id = ? */
  function Put(rows: seq<Row>, id: nat, row: Row -> Row): seq<Row> {
    if 1 <= id <= |rows| then rows[id - 1 := row(rows[id - 1])] else rows
  }

  function AfterRead(s: Shared, t: nat, e: Entry): Shared {
    match Find(s.rows, e.source, e.key)
    case None => s.(flights := s.flights[t := Insert(e)])
    case Some(i) =>
      if s.rows[i].status == Rejected then s
      else if s.rows[i].status == Approved then s.(flights := s.flights[t := Touch(i + 1)])
      else s.(flights := s.flights[t := Refresh(i + 1, e)])
  }

  function AfterWrite(rows: seq<Row>, f: Flight, now: int): seq<Row> {
    match f
    case Refresh(id, e) => Put(rows, id, (r: Row) => Refreshed(r, e, now))
    case Touch(id) => Put(rows, id, (r: Row) => r.(lastSeen := now))
    // UNIQUE (source, source_key)
    case Insert(e) =>
      if Find(rows, e.source, e.key).Some? then rows
      else rows + [Row(|rows| + 1, e.source, e.key, e.fields, Pending, now, now, None)]
    case _ => rows
  }

  function WithNewConn(s: Shared, alias: string): Shared {
    s.(conns := s.conns[s.nextConn := alias], nextConn := s.nextConn + 1)
  }

  function Apply(s: Shared, st: Stmt): Shared
    requires Enabled(s, st)
  {
    match st
    case UpsertRead(t, e) => AfterRead(s, t, e)
    case UpsertWrite(t, now, ok) =>
      s.(rows := if ok then AfterWrite(s.rows, s.flights[t], now) else s.rows, flights := s.flights - {t})
    case ApproveRead(t, id) => s.(flights := s.flights[t := Approving(id, s.rows[id - 1].fields.alias)])
    case ConnInsert(t, ok) =>
      var f := s.flights[t];
      if ok && Free(s, f.alias) then WithNewConn(s, f.alias).(flights := s.flights[t := Marking(f.id, s.nextConn)])
      else s.(flights := s.flights - {t})
    // approved_conn_id REFERENCES connections(id): a connection gone makes it fail.
    case ApproveMark(t, now, ok) =>
      var f := s.flights[t];
      s.(rows := if ok && f.conn in s.conns
                 then Put(s.rows, f.id, (r: Row) => r.(status := Approved, approvedConn := Some(f.conn), lastSeen := now))
                 else s.rows,
         flights := s.flights - {t})
    case RejectWrite(id, ok) => if ok then s.(rows := Put(s.rows, id, (r: Row) => r.(status := Rejected))) else s
    case LapseWrite(source, keys, ok) => if ok then s.(rows := MarkRows(s.rows, source, keys)) else s
    case ConnAdd(alias, ok) => if ok && Free(s, alias) then WithNewConn(s, alias) else s
    case ConnDelete(conn, ok) =>
      if ok && conn in s.conns then s.(conns := s.conns - {conn}, rows := UnlinkAll(s.rows, conn)) else s
  }

  /** Connection ids are never used twice. */
  predicate Numbered(s: Shared) {
    forall c | c in s.conns :: c < s.nextConn
  }

  /** The state after each statement of a schedule; every statement was enabled,
      and no call was under way at the start. */
  ghost predicate Run(ss: seq<Shared>, sts: seq<Stmt>) {
    && |ss| == |sts| + 1 && ss[0].flights == map[] && Numbered(ss[0])
    && forall k | 0 <= k < |sts| :: Enabled(ss[k], sts[k]) && ss[k + 1] == Apply(ss[k], sts[k])
  }

  /** A read and a write with nothing between them are one Upsert. */
  lemma UndisturbedIsUpsert(s: Shared, t: nat, e: Entry, now: int)
    requires Enabled(s, UpsertRead(t, e))
    ensures var u := Apply(s, UpsertRead(t, e));
            u.rows == s.rows
            && UpsertRows(s.rows, e, now, NoFault).0
               == if t in u.flights then Apply(u, UpsertWrite(t, now, true)).rows else s.rows
  {
    hide Acceptable, Find;
  }

  /** An approval's three statements with nothing between them are one Approve, of
      what is supplied with it. */
  lemma UndisturbedIsApprove(s: Shared, w: World, t: nat, id: nat, a: Approval, now: int)
    requires w.rows == s.rows && w.conns == s.conns && w.nextConn == s.nextConn
    requires Enabled(s, ApproveRead(t, id)) && a.revealOk && (s.rows[id - 1].fields.tag == "production" ==> a.passphrase)
    ensures var read := Apply(s, ApproveRead(t, id));
            Enabled(read, ConnInsert(t, a.createOk))
            && var made := Apply(read, ConnInsert(t, a.createOk));
               var end := if t in made.flights then Apply(made, ApproveMark(t, now, a.markOk)) else made;
               var w' := Approve(w, id, a, now).0;
               end.rows == w'.rows && end.conns == w'.conns && end.nextConn == w'.nextConn && t !in end.flights
  {
  }

  /** The single statements are the calls they make up. */
  lemma SingleStatements(s: Shared, w: World, id: nat, source: string, keys: seq<string>, alias: string, conn: nat, ok: bool)
    requires w.rows == s.rows && w.conns == s.conns && w.nextConn == s.nextConn
    ensures Apply(s, RejectWrite(id, ok)).rows == Reject(w, id, ok).0.rows
    ensures Apply(s, LapseWrite(source, keys, ok)).rows == if ok then MarkRows(w.rows, source, keys) else w.rows
    ensures alias != "" ==> Apply(s, ConnAdd(alias, ok)).conns == AddConn(w, alias, ok).conns
    ensures Apply(s, ConnDelete(conn, ok)).conns == DeleteConn(w, conn, ok).conns
    ensures Apply(s, ConnDelete(conn, ok)).rows == DeleteConn(w, conn, ok).rows
  {
    hide AfterRead, AfterWrite, Find, MarkRows, UnlinkAll;
  }

  // ----- where a call in flight comes from -----

  /** Statement r, by call t, left it in flight with f, and the call did nothing
      more before statement u. */
  ghost predicate From(ss: seq<Shared>, sts: seq<Stmt>, r: nat, u: nat, t: nat, f: Flight) {
    && r < u < |sts| && |ss| == |sts| + 1 && By(sts[r], t) && t in ss[r + 1].flights && ss[r + 1].flights[t] == f
    && forall m | r < m < u :: !By(sts[m], t)
  }

  lemma OthersLeaveFlight(s: Shared, st: Stmt, t: nat)
    requires Enabled(s, st) && !By(st, t)
    ensures t in Apply(s, st).flights <==> t in s.flights
    ensures t in s.flights ==> Apply(s, st).flights[t] == s.flights[t]
  {
    hide Find, AfterWrite, MarkRows;
  }

  /** What a statement of the call itself can leave in flight. */
  lemma OwnFlight(s: Shared, st: Stmt, t: nat)
    requires Enabled(s, st) && By(st, t) && t in Apply(s, st).flights
    ensures var f := Apply(s, st).flights[t];
            && (f.Refresh? ==> st.UpsertRead? && OpenRow(s, f.id) && Find(s.rows, st.entry.source, st.entry.key) == Some(f.id - 1))
            && (f.Approving? ==> st == ApproveRead(t, f.id) && OpenRow(s, f.id) && f.alias == s.rows[f.id - 1].fields.alias)
            && (f.Marking? ==> st == ConnInsert(t, true) && t in s.flights && s.flights[t].Approving? && s.flights[t].id == f.id
                               && Free(s, s.flights[t].alias) && f.conn == s.nextConn)
  {
    hide AfterWrite, MarkRows;
  }

  lemma {:induction false} FlightOrigin(ss: seq<Shared>, sts: seq<Stmt>, u: nat, t: nat) returns (r: nat)
    requires Run(ss, sts) && u < |sts| && t in ss[u].flights
    ensures From(ss, sts, r, u, t, ss[u].flights[t])
  {
    assert u > 0;
    assert ss[u - 1 + 1] == Apply(ss[u - 1], sts[u - 1]);
    hide Apply, By;
    if By(sts[u - 1], t) {
      r := u - 1;
    } else {
      OthersLeaveFlight(ss[u - 1], sts[u - 1], t);
      r := FlightOrigin(ss, sts, u - 1, t);
    }
  }

  lemma {:induction false} FlightStays(ss: seq<Shared>, sts: seq<Stmt>, r: nat, u: nat, t: nat, f: Flight)
    requires Run(ss, sts) && From(ss, sts, r, u, t, f)
    ensures t in ss[u].flights && ss[u].flights[t] == f
    decreases u
  {
    hide Apply, By;
    if r + 1 < u {
      FlightStays(ss, sts, r, u - 1, t, f);
      assert ss[u - 1 + 1] == Apply(ss[u - 1], sts[u - 1]);
      OthersLeaveFlight(ss[u - 1], sts[u - 1], t);
    }
  }

  // ----- when a decision is undone -----

  /** Upsert read the row open at statement r, and writes it at statement u. */
  ghost predicate StaleUpsert(ss: seq<Shared>, sts: seq<Stmt>, r: nat, u: nat, id: nat) {
    && r < u < |sts| && |ss| == |sts| + 1 && sts[r].UpsertRead? && OpenRow(ss[r], id)
    && Find(ss[r].rows, sts[r].entry.source, sts[r].entry.key) == Some(id - 1)
    && sts[u].UpsertWrite? && sts[u].ok && sts[u].t == sts[r].t
    && forall m | r < m < u :: !By(sts[m], sts[r].t)
  }

  /** An approval read the row open at statement r, and at statement c made the
      connection under the alias it had read, which was free. */
  ghost predicate Made(ss: seq<Shared>, sts: seq<Stmt>, r: nat, c: nat, t: nat, id: nat, conn: nat) {
    && r < c < |sts| && |ss| == |sts| + 1
    && sts[r] == ApproveRead(t, id) && OpenRow(ss[r], id)
    && sts[c] == ConnInsert(t, true) && Free(ss[c], ss[r].rows[id - 1].fields.alias) && conn == ss[c].nextConn
    && forall m | r < m < c :: !By(sts[m], t)
  }

  /** ... and at statement u it marks the row, the connection being still there. */
  ghost predicate Carried(ss: seq<Shared>, sts: seq<Stmt>, r: nat, c: nat, u: nat, id: nat, conn: nat) {
    && c < u < |sts| && |ss| == |sts| + 1
    && sts[u].ApproveMark? && sts[u].ok && Made(ss, sts, r, c, sts[u].t, id, conn) && conn in ss[u].conns
    && forall m | c < m < u :: !By(sts[m], sts[u].t)
  }

  ghost predicate StaleApproval(ss: seq<Shared>, sts: seq<Stmt>, r: nat, u: nat, id: nat) {
    exists c: nat, conn: nat :: Carried(ss, sts, r, c, u, id, conn)
  }

  /** Statement d decides the row. */
  ghost predicate Decision(ss: seq<Shared>, d: nat, id: nat) {
    d + 1 < |ss| && OpenRow(ss[d], id) && Decided(ss[d + 1], id)
  }

  /** Statement u turns a decided row back to pending. */
  ghost predicate Undone(ss: seq<Shared>, u: nat, id: nat) {
    u + 1 < |ss| && Decided(ss[u], id) && OpenRow(ss[u + 1], id)
  }

  /** What one statement can do to a decided row. */
  lemma DecidedStep(s: Shared, st: Stmt, id: nat)
    requires Enabled(s, st) && Decided(s, id)
    ensures Has(Apply(s, st), id)
    ensures !Decided(Apply(s, st), id) <==>
              st.UpsertWrite? && st.ok && s.flights[st.t].Refresh? && s.flights[st.t].id == id
    ensures RejectedRow(s, id) ==>
              (ApprovedRow(Apply(s, st), id) <==>
                 st.ApproveMark? && st.ok && s.flights[st.t].id == id && s.flights[st.t].conn in s.conns)
  {
    hide Find, Acceptable;
    if st.LapseWrite? && st.ok {
      assert Apply(s, st).rows[id - 1] == Lapse(s.rows[id - 1], st.source, st.keys);
    }
  }

  lemma RowsRemain(s: Shared, st: Stmt)
    requires Enabled(s, st)
    ensures |s.rows| <= |Apply(s, st).rows|
  {
    hide Find, Acceptable;
  }

  lemma {:induction false} DecidedBetween(ss: seq<Shared>, sts: seq<Stmt>, a: nat, b: nat, id: nat) returns (d: nat)
    requires Run(ss, sts) && a <= b < |ss| && OpenRow(ss[a], id) && Decided(ss[b], id)
    ensures a <= d < b && Decision(ss, d, id)
    decreases b - a
  {
    hide Apply;
    assert ss[a + 1] == Apply(ss[a], sts[a]);
    RowsRemain(ss[a], sts[a]);
    if Decided(ss[a + 1], id) {
      d := a;
    } else {
      d := DecidedBetween(ss, sts, a + 1, b, id);
    }
  }

  /** In every interleaving of scans, approvals, rejections and lapses, a decision
      is undone exactly when an Upsert read the row before the decision and wrote
      it after; so an approved row, like a rejected one, can return to pending. */
  lemma DecisionUndoneIff(ss: seq<Shared>, sts: seq<Stmt>, u: nat, id: nat)
    requires Run(ss, sts) && u < |sts|
    ensures Undone(ss, u, id) <==>
              Decided(ss[u], id) && exists r: nat, d: nat :: r < d < u && StaleUpsert(ss, sts, r, u, id) && Decision(ss, d, id)
  {
    assert ss[u + 1] == Apply(ss[u], sts[u]) && Enabled(ss[u], sts[u]);
    if Decided(ss[u], id) {
      DecidedStep(ss[u], sts[u], id);
      hide Apply, By, Run, Find;
      if Undone(ss, u, id) {
        var t := sts[u].t;
        var r := FlightOrigin(ss, sts, u, t);
        ReadOpen(ss, sts, r, t);
        assert StaleUpsert(ss, sts, r, u, id);
        var d := DecidedBetween(ss, sts, r + 1, u, id);
        assert Decision(ss, d, id);
      }
      if r: nat, d: nat :| r < d < u && StaleUpsert(ss, sts, r, u, id) && Decision(ss, d, id) {
        StaleIsFrom(ss, sts, r, u, id);
        FlightStays(ss, sts, r, u, sts[r].t, Refresh(id, sts[r].entry));
      }
    }
  }

  /** What the read that left a call in flight saw; reads change no row. */
  lemma ReadOpen(ss: seq<Shared>, sts: seq<Stmt>, r: nat, t: nat)
    requires Run(ss, sts) && r < |sts| && By(sts[r], t) && t in ss[r + 1].flights
    ensures var f := ss[r + 1].flights[t];
            && (f.Refresh? ==> sts[r].UpsertRead? && OpenRow(ss[r], f.id) && OpenRow(ss[r + 1], f.id)
                               && Find(ss[r].rows, sts[r].entry.source, sts[r].entry.key) == Some(f.id - 1))
            && (f.Approving? ==> sts[r] == ApproveRead(t, f.id) && OpenRow(ss[r], f.id) && OpenRow(ss[r + 1], f.id)
                                 && f.alias == ss[r].rows[f.id - 1].fields.alias)
            && (f.Marking? ==> sts[r] == ConnInsert(t, true) && t in ss[r].flights && ss[r].flights[t].Approving?
                               && ss[r].flights[t].id == f.id && Free(ss[r], ss[r].flights[t].alias) && f.conn == ss[r].nextConn)
  {
    assert ss[r + 1] == Apply(ss[r], sts[r]);
    OwnFlight(ss[r], sts[r], t);
    assert sts[r].UpsertRead? || sts[r].ApproveRead? ==> ss[r + 1].rows == ss[r].rows;
  }

  lemma StaleIsFrom(ss: seq<Shared>, sts: seq<Stmt>, r: nat, u: nat, id: nat)
    requires Run(ss, sts)
    ensures StaleUpsert(ss, sts, r, u, id) ==> From(ss, sts, r, u, sts[r].t, Refresh(id, sts[r].entry))
  {
    if r < |sts| { assert ss[r + 1] == Apply(ss[r], sts[r]); }
    hide Find, Run;
  }

  /** A connection made leaves its call in flight. */
  lemma MadeLeaves(ss: seq<Shared>, sts: seq<Stmt>, r: nat, c: nat, t: nat, id: nat, conn: nat)
    requires Run(ss, sts) && Made(ss, sts, r, c, t, id, conn)
    ensures t in ss[c + 1].flights && ss[c + 1].flights[t] == Marking(id, conn)
    ensures ss[c + 1].conns == ss[c].conns[conn := ss[r].rows[id - 1].fields.alias]
  {
    assert ss[r + 1] == Apply(ss[r], sts[r]) && ss[c + 1] == Apply(ss[c], sts[c]);
    assert From(ss, sts, r, c, t, Approving(id, ss[r].rows[id - 1].fields.alias)) by { hide Run, Find; }
    FlightStays(ss, sts, r, c, t, Approving(id, ss[r].rows[id - 1].fields.alias));
    hide Run, Find;
  }

  /** What brought a call to the point of marking. */
  lemma MarkingOrigin(ss: seq<Shared>, sts: seq<Stmt>, u: nat, t: nat) returns (r: nat, c: nat)
    requires Run(ss, sts) && u < |sts| && t in ss[u].flights && ss[u].flights[t].Marking?
    ensures c < u && Made(ss, sts, r, c, t, ss[u].flights[t].id, ss[u].flights[t].conn) && OpenRow(ss[r + 1], ss[u].flights[t].id)
    ensures forall m | c < m < u :: !By(sts[m], t)
  {
    hide Run, Find, By;
    c := FlightOrigin(ss, sts, u, t);
    ReadOpen(ss, sts, c, t);
    r := FlightOrigin(ss, sts, c, t);
    ReadOpen(ss, sts, r, t);
  }

  /** Statement u records this connection for the row. */
  ghost predicate Recorded(ss: seq<Shared>, sts: seq<Stmt>, u: nat, id: nat, conn: nat) {
    && u < |sts| && |ss| == |sts| + 1 && sts[u].ApproveMark? && sts[u].ok
    && sts[u].t in ss[u].flights && ss[u].flights[sts[u].t] == Marking(id, conn) && conn in ss[u].conns
  }

  /** A connection is recorded exactly by an approval that read the row open, made
      the connection while the alias was free, and marks it while it exists. */
  lemma RecordedIff(ss: seq<Shared>, sts: seq<Stmt>, u: nat, id: nat, conn: nat)
    requires Run(ss, sts)
    ensures Recorded(ss, sts, u, id, conn) <==> exists r: nat, c: nat :: Carried(ss, sts, r, c, u, id, conn)
  {
    hide Run, Find, Made, By;
    if Recorded(ss, sts, u, id, conn) {
      var r, c := MarkingOrigin(ss, sts, u, sts[u].t);
      assert Carried(ss, sts, r, c, u, id, conn);
    }
    if r: nat, c: nat :| Carried(ss, sts, r, c, u, id, conn) {
      var t := sts[u].t;
      MadeLeaves(ss, sts, r, c, t, id, conn);
      InsertIsBy(ss, sts, r, c, t, id, conn);
      FlightStays(ss, sts, c, u, t, Marking(id, conn));
    }
  }

  lemma InsertIsBy(ss: seq<Shared>, sts: seq<Stmt>, r: nat, c: nat, t: nat, id: nat, conn: nat)
    requires Made(ss, sts, r, c, t, id, conn)
    ensures c < |sts| && By(sts[c], t)
  {
    hide Find;
  }

  lemma ApprovedByRecord(ss: seq<Shared>, sts: seq<Stmt>, u: nat, id: nat)
    requires Run(ss, sts) && u < |sts| && RejectedRow(ss[u], id)
    ensures ApprovedRow(ss[u + 1], id) <==> exists conn: nat :: Recorded(ss, sts, u, id, conn)
  {
    assert ss[u + 1] == Apply(ss[u], sts[u]) && Enabled(ss[u], sts[u]);
    DecidedStep(ss[u], sts[u], id);
    hide Apply, By, Run, Find;
    if ApprovedRow(ss[u + 1], id) {
      assert Recorded(ss, sts, u, id, ss[u].flights[sts[u].t].conn);
    }
  }

  /** A rejection is overtaken by an approval exactly when the approval read the
      row before it was decided and marked it after. */
  lemma RejectionOvertakenIff(ss: seq<Shared>, sts: seq<Stmt>, u: nat, id: nat)
    requires Run(ss, sts) && u < |sts|
    ensures RejectedRow(ss[u], id) && ApprovedRow(ss[u + 1], id) <==>
              RejectedRow(ss[u], id) && exists r: nat, d: nat :: r < d < u && StaleApproval(ss, sts, r, u, id) && Decision(ss, d, id)
  {
    assert |ss| == |sts| + 1;
    hide Run, Recorded, Carried;
    if RejectedRow(ss[u], id) {
      ApprovedByRecord(ss, sts, u, id);
      if ApprovedRow(ss[u + 1], id) {
        var conn: nat :| Recorded(ss, sts, u, id, conn);
        RecordedIff(ss, sts, u, id, conn);
        var r: nat, c: nat :| Carried(ss, sts, r, c, u, id, conn);
        ReadBefore(ss, sts, r, c, u, id, conn);
        assert StaleApproval(ss, sts, r, u, id);
        hide ApprovedRow;
        var d := DecidedBetween(ss, sts, r + 1, u, id);
        assert Decision(ss, d, id);
      }
      if r: nat, d: nat :| r < d < u && StaleApproval(ss, sts, r, u, id) && Decision(ss, d, id) {
        var c: nat, conn: nat :| Carried(ss, sts, r, c, u, id, conn);
        RecordedIff(ss, sts, u, id, conn);
      }
    }
  }

  lemma ReadBefore(ss: seq<Shared>, sts: seq<Stmt>, r: nat, c: nat, u: nat, id: nat, conn: nat)
    requires Run(ss, sts) && Carried(ss, sts, r, c, u, id, conn)
    ensures r < c < u < |sts| && OpenRow(ss[r], id) && OpenRow(ss[r + 1], id)
  {
    assert ss[r + 1] == Apply(ss[r], sts[r]);
  }

  // ----- runs in which it happens -----

  /** A scan reads a pending row, the row is approved, the scan writes: the
      approved row is pending again. */
  lemma ApprovedRevives(s: Shared, i: nat, e: Entry, now: int) returns (ss: seq<Shared>, sts: seq<Stmt>)
    requires s.flights == map[] && Numbered(s) && Acceptable(e)
    requires Find(s.rows, e.source, e.key) == Some(i) && s.rows[i].status == Pending && Free(s, s.rows[i].fields.alias)
    ensures Run(ss, sts) && ss[0] == s && |sts| == 5 && ApprovedRow(ss[4], i + 1) && Undone(ss, 4, i + 1)
  {
    hide Acceptable, Find;
    sts := [UpsertRead(0, e), ApproveRead(1, i + 1), ConnInsert(1, true), ApproveMark(1, now, true), UpsertWrite(0, now, true)];
    var a := Apply(s, sts[0]);
    var b := Apply(a, sts[1]);
    var c := Apply(b, sts[2]);
    var d := Apply(c, sts[3]);
    var f := Apply(d, sts[4]);
    ss := [s, a, b, c, d, f];
  }

  /** The same with a rejection in between. */
  lemma RejectedRevives(s: Shared, i: nat, e: Entry, now: int) returns (ss: seq<Shared>, sts: seq<Stmt>)
    requires s.flights == map[] && Numbered(s) && Acceptable(e)
    requires Find(s.rows, e.source, e.key) == Some(i) && s.rows[i].status == Pending
    ensures Run(ss, sts) && ss[0] == s && |sts| == 3 && RejectedRow(ss[2], i + 1) && Undone(ss, 2, i + 1)
  {
    hide Acceptable, Find;
    sts := [UpsertRead(0, e), RejectWrite(i + 1, true), UpsertWrite(0, now, true)];
    var a := Apply(s, sts[0]);
    var b := Apply(a, sts[1]);
    var c := Apply(b, sts[2]);
    ss := [s, a, b, c];
  }
}
