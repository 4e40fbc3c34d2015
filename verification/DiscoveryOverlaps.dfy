/** Two approvals of one row in flight at once: when both make a connection, and
    when both record theirs. */
module DiscoveryOverlaps {
  import opened Base
  import opened Discovery
  import opened DiscoveryRaces

  // ----- connections over a schedule -----

  lemma StepNumbers(s: Shared, st: Stmt)
    requires Enabled(s, st) && Numbered(s)
    ensures Numbered(Apply(s, st)) && s.nextConn <= Apply(s, st).nextConn
    ensures forall k | k in Apply(s, st).conns && k < s.nextConn :: k in s.conns && Apply(s, st).conns[k] == s.conns[k]
    ensures |s.rows| <= |Apply(s, st).rows|
  {
    RowsRemain(s, st);
    hide Find, Acceptable, Free;
  }

  lemma {:induction false} RunNumbers(ss: seq<Shared>, sts: seq<Stmt>, k: nat)
    requires Run(ss, sts) && k < |ss|
    ensures Numbered(ss[k])
  {
    hide Apply, Numbered;
    if k > 0 {
      RunNumbers(ss, sts, k - 1);
      assert ss[k - 1 + 1] == Apply(ss[k - 1], sts[k - 1]);
      StepNumbers(ss[k - 1], sts[k - 1]);
    }
  }

  /** A connection that exists later existed before, under the same alias, if its
      number had been given out; and rows never go away. */
  lemma {:induction false} Before(ss: seq<Shared>, sts: seq<Stmt>, a: nat, b: nat)
    requires Run(ss, sts) && a <= b < |ss|
    ensures ss[a].nextConn <= ss[b].nextConn && |ss[a].rows| <= |ss[b].rows|
    ensures forall k | k in ss[b].conns && k < ss[a].nextConn :: k in ss[a].conns && ss[b].conns[k] == ss[a].conns[k]
  {
    hide Apply;
    if a < b {
      Before(ss, sts, a, b - 1);
      assert ss[b - 1 + 1] == Apply(ss[b - 1], sts[b - 1]);
      RunNumbers(ss, sts, b - 1);
      StepNumbers(ss[b - 1], sts[b - 1]);
    }
  }

  function AliasRead(ss: seq<Shared>, r: nat, id: nat): string
    requires r < |ss| && Has(ss[r], id)
  {
    ss[r].rows[id - 1].fields.alias
  }

  /** A connection made, as long as it exists, has the alias its approval read. */
  lemma MadeKeepsAlias(ss: seq<Shared>, sts: seq<Stmt>, r: nat, c: nat, t: nat, id: nat, conn: nat, b: nat)
    requires Run(ss, sts) && Made(ss, sts, r, c, t, id, conn) && c < b < |ss| && conn in ss[b].conns
    ensures ss[b].conns[conn] == AliasRead(ss, r, id)
  {
    hide Find;
    assert ss[c + 1] == Apply(ss[c], sts[c]);
    MadeLeaves(ss, sts, r, c, t, id, conn);
    RunNumbers(ss, sts, c + 1);
    hide Apply;
    assert conn in ss[c + 1].conns;
    Before(ss, sts, c + 1, b);
  }

  // ----- making a second connection -----

  /** An approval that read the row open at statement r tries the insert at c. */
  ghost predicate Tries(ss: seq<Shared>, sts: seq<Stmt>, r: nat, c: nat, t: nat, id: nat) {
    && r < c < |sts| && |ss| == |sts| + 1
    && sts[r] == ApproveRead(t, id) && OpenRow(ss[r], id) && sts[c] == ConnInsert(t, true)
    && forall m | r < m < c :: !By(sts[m], t)
  }

  /** After one connection from the row, and with no other connection in the way, an
      approval makes a second exactly when the first is gone by then or the two
      approvals read different aliases. */
  lemma AnotherMadeIff(ss: seq<Shared>, sts: seq<Stmt>, r1: nat, c1: nat, t1: nat, r2: nat, c2: nat, t2: nat, id: nat, conn: nat)
    requires Run(ss, sts) && Made(ss, sts, r1, c1, t1, id, conn) && Tries(ss, sts, r2, c2, t2, id) && c1 < c2
    requires forall k | k in ss[c2].conns && ss[c2].conns[k] == AliasRead(ss, r2, id) :: k == conn
    ensures Made(ss, sts, r2, c2, t2, id, ss[c2].nextConn) <==>
              conn !in ss[c2].conns || AliasRead(ss, r1, id) != AliasRead(ss, r2, id)
  {
    hide Run, Find;
    if conn in ss[c2].conns {
      MadeKeepsAlias(ss, sts, r1, c1, t1, id, conn, c2);
      assert ss[c2].conns[conn] in ss[c2].conns.Values;
    }
    hide By;
    assert Free(ss[c2], AliasRead(ss, r2, id)) <==> forall k | k in ss[c2].conns :: ss[c2].conns[k] != AliasRead(ss, r2, id);
  }

  // ----- recording a second connection -----

  /** The approval that records second read the row before the first recorded, or
      after its decision was undone. */
  ghost predicate Late(ss: seq<Shared>, u1: nat, r2: nat, id: nat) {
    r2 < u1 || exists v: nat :: u1 < v < r2 && Undone(ss, v, id)
  }

  /** Of two connections, the one made first was gone when the other was made, or
      the aliases read differ. */
  ghost predicate Freed(ss: seq<Shared>, r1: nat, c1: nat, conn1: nat, r2: nat, c2: nat, conn2: nat, id: nat)
    requires r1 < |ss| && r2 < |ss| && c1 < |ss| && c2 < |ss| && Has(ss[r1], id) && Has(ss[r2], id)
  {
    || AliasRead(ss, r1, id) != AliasRead(ss, r2, id)
    || (if c1 < c2 then conn1 !in ss[c2].conns else conn2 !in ss[c1].conns)
  }

  /** Two approvals of the row, each with its own statements. */
  ghost predicate Overlap(ss: seq<Shared>, sts: seq<Stmt>, r1: nat, c1: nat, u1: nat, conn1: nat,
                          r2: nat, c2: nat, u2: nat, conn2: nat, id: nat) {
    && Carried(ss, sts, r1, c1, u1, id, conn1) && Carried(ss, sts, r2, c2, u2, id, conn2)
    && c1 != c2 && Late(ss, u1, r2, id) && Freed(ss, r1, c1, conn1, r2, c2, conn2, id)
  }

  lemma RecordApproves(ss: seq<Shared>, sts: seq<Stmt>, r: nat, c: nat, u: nat, id: nat, conn: nat)
    requires Run(ss, sts) && Carried(ss, sts, r, c, u, id, conn)
    ensures Decided(ss[u + 1], id)
  {
    assert 1 <= id <= |ss[r].rows| && r < u;
    assert ss[u + 1] == Apply(ss[u], sts[u]);
    RecordedIff(ss, sts, u, id, conn);
    Before(ss, sts, r, u);
    hide Run, Carried, Find;
  }

  lemma {:induction false} UndoneBetween(ss: seq<Shared>, sts: seq<Stmt>, a: nat, b: nat, id: nat) returns (v: nat)
    requires Run(ss, sts) && a <= b < |ss| && Decided(ss[a], id) && OpenRow(ss[b], id)
    ensures a <= v < b && Undone(ss, v, id)
    decreases b - a
  {
    hide Apply;
    assert ss[a + 1] == Apply(ss[a], sts[a]);
    RowsRemain(ss[a], sts[a]);
    if Decided(ss[a + 1], id) {
      v := UndoneBetween(ss, sts, a + 1, b, id);
    } else {
      v := a;
    }
  }

  lemma MadeIsFreed(ss: seq<Shared>, sts: seq<Stmt>, r1: nat, c1: nat, t1: nat, conn1: nat,
                    r2: nat, c2: nat, t2: nat, conn2: nat, id: nat)
    requires Run(ss, sts) && Made(ss, sts, r1, c1, t1, id, conn1) && Made(ss, sts, r2, c2, t2, id, conn2) && c1 < c2
    ensures AliasRead(ss, r1, id) != AliasRead(ss, r2, id) || conn1 !in ss[c2].conns
    ensures conn1 != conn2
  {
    hide Find, By;
    MadeLeaves(ss, sts, r1, c1, t1, id, conn1);
    RunNumbers(ss, sts, c1 + 1);
    Before(ss, sts, c1 + 1, c2);
    hide Run;
    assert conn1 in ss[c1 + 1].conns;
    if conn1 in ss[c2].conns {
      MadeKeepsAlias(ss, sts, r1, c1, t1, id, conn1, c2);
      assert ss[c2].conns[conn1] in ss[c2].conns.Values;
    }
  }

  /** In every interleaving, a row has two connections recorded for it exactly when
      two approvals of it overlap, or the decision of the first is undone before
      the second reads; and the second to be made found its alias free, because
      the aliases read differ or the first connection was gone. */
  lemma RecordedTwiceIff(ss: seq<Shared>, sts: seq<Stmt>, u1: nat, u2: nat, id: nat, conn1: nat, conn2: nat)
    requires Run(ss, sts) && u1 < u2
    ensures Recorded(ss, sts, u1, id, conn1) && Recorded(ss, sts, u2, id, conn2) <==>
              exists r1: nat, c1: nat, r2: nat, c2: nat :: Overlap(ss, sts, r1, c1, u1, conn1, r2, c2, u2, conn2, id)
  {
    hide Run, Recorded, Carried;
    RecordedIff(ss, sts, u1, id, conn1);
    RecordedIff(ss, sts, u2, id, conn2);
    if Recorded(ss, sts, u1, id, conn1) && Recorded(ss, sts, u2, id, conn2) {
      var r1: nat, c1: nat :| Carried(ss, sts, r1, c1, u1, id, conn1);
      var r2: nat, c2: nat :| Carried(ss, sts, r2, c2, u2, id, conn2);
      ApprovalsOverlap(ss, sts, r1, c1, u1, conn1, r2, c2, u2, conn2, id);
      assert Overlap(ss, sts, r1, c1, u1, conn1, r2, c2, u2, conn2, id);
    }
  }

  lemma ApprovalsOverlap(ss: seq<Shared>, sts: seq<Stmt>, r1: nat, c1: nat, u1: nat, conn1: nat,
                         r2: nat, c2: nat, u2: nat, conn2: nat, id: nat)
    requires Run(ss, sts) && u1 < u2
    requires Carried(ss, sts, r1, c1, u1, id, conn1) && Carried(ss, sts, r2, c2, u2, id, conn2)
    ensures Overlap(ss, sts, r1, c1, u1, conn1, r2, c2, u2, conn2, id) && conn1 != conn2
  {
    assert |ss| == |sts| + 1;
    hide Run;
    OneCallEach(ss, sts, r1, c1, u1, conn1, r2, c2, u2, conn2, id);
    if c1 < c2 { MadeIsFreed(ss, sts, r1, c1, sts[u1].t, conn1, r2, c2, sts[u2].t, conn2, id); }
    else { MadeIsFreed(ss, sts, r2, c2, sts[u2].t, conn2, r1, c1, sts[u1].t, conn1, id); }
    if r2 >= u1 {
      assert r2 != u1;
      RecordApproves(ss, sts, r1, c1, u1, id, conn1);
      var v := UndoneBetween(ss, sts, u1 + 1, r2, id);
    }
  }

  /** One insert belongs to one approval, and one approval marks once. */
  lemma OneCallEach(ss: seq<Shared>, sts: seq<Stmt>, r1: nat, c1: nat, u1: nat, conn1: nat,
                    r2: nat, c2: nat, u2: nat, conn2: nat, id: nat)
    requires u1 < u2 && Carried(ss, sts, r1, c1, u1, id, conn1) && Carried(ss, sts, r2, c2, u2, id, conn2)
    ensures c1 != c2
  {
    hide Find, OpenRow, Free;
    assert By(sts[u1], sts[u1].t);
  }

  // ----- a run in which it happens -----

  /** The row is read, renamed by a scan, and read again. */
  lemma ReadTwice(s: Shared, i: nat, e: Entry, now: int) returns (ss: seq<Shared>, sts: seq<Stmt>)
    requires s.flights == map[] && Numbered(s) && Acceptable(e)
    requires Find(s.rows, e.source, e.key) == Some(i) && s.rows[i].status == Pending
    ensures Run(ss, sts) && ss[0] == s
    ensures sts == [ApproveRead(1, i + 1), UpsertRead(0, e), UpsertWrite(0, now, true), ApproveRead(2, i + 1)]
    ensures ss[4].conns == s.conns && ss[4].nextConn == s.nextConn && i < |ss[4].rows|
    ensures ss[4].flights == map[1 := Approving(i + 1, s.rows[i].fields.alias), 2 := Approving(i + 1, e.fields.alias)]
  {
    hide Acceptable, Find;
    sts := [ApproveRead(1, i + 1), UpsertRead(0, e), UpsertWrite(0, now, true), ApproveRead(2, i + 1)];
    var one := s.(flights := map[1 := Approving(i + 1, s.rows[i].fields.alias)]);
    assert Apply(s, sts[0]) == one;
    var two := one.(flights := one.flights[0 := Refresh(i + 1, e)]);
    assert Apply(one, sts[1]) == two;
    var three := one.(rows := s.rows[i := Refreshed(s.rows[i], e, now)]);
    assert two.flights - {0} == one.flights;
    assert Apply(two, sts[2]) == three;
    ss := [s, one, two, three, Apply(three, sts[3])];
  }

  /** Both make a connection and both mark the row. */
  lemma InsertAndMark(s: Shared, id: nat, a1: string, a2: string, now: int)
    requires Numbered(s) && Free(s, a1) && Free(s, a2) && a1 != a2
    requires s.flights == map[1 := Approving(id, a1), 2 := Approving(id, a2)]
    ensures Enabled(s, ConnInsert(1, true))
    ensures var s1 := Apply(s, ConnInsert(1, true));
            Enabled(s1, ConnInsert(2, true))
            && var s2 := Apply(s1, ConnInsert(2, true));
               Enabled(s2, ApproveMark(1, now, true)) && s2.flights[1] == Marking(id, s.nextConn) && s.nextConn in s2.conns
               && var s3 := Apply(s2, ApproveMark(1, now, true));
                  Enabled(s3, ApproveMark(2, now, true)) && s3.flights[2] == Marking(id, s.nextConn + 1) && s.nextConn + 1 in s3.conns
  {
    var s1 := Apply(s, ConnInsert(1, true));
    assert s1.conns == s.conns[s.nextConn := a1];
    assert s1.flights == map[1 := Marking(id, s.nextConn), 2 := Approving(id, a2)];
    assert Free(s1, a2);
    var s2 := Apply(s1, ConnInsert(2, true));
    assert s2.flights == map[1 := Marking(id, s.nextConn), 2 := Marking(id, s.nextConn + 1)];
  }

  /** Two approvals of a pending row, with a scan renaming it between their reads:
      both make a connection and both record it. */
  lemma BothRecord(s: Shared, i: nat, e: Entry, now: int) returns (ss: seq<Shared>, sts: seq<Stmt>)
    requires s.flights == map[] && Numbered(s) && Acceptable(e)
    requires Find(s.rows, e.source, e.key) == Some(i) && s.rows[i].status == Pending
    requires Free(s, s.rows[i].fields.alias) && Free(s, e.fields.alias) && s.rows[i].fields.alias != e.fields.alias
    ensures Run(ss, sts) && ss[0] == s && |sts| == 8
    ensures Recorded(ss, sts, 6, i + 1, s.nextConn) && Recorded(ss, sts, 7, i + 1, s.nextConn + 1)
  {
    ss, sts := ReadTwice(s, i, e, now);
    InsertAndMark(ss[4], i + 1, s.rows[i].fields.alias, e.fields.alias, now);
    assert |ss| == 5 && |sts| == 4;
    hide *;
    ss, sts := AndThen(ss, sts, ConnInsert(1, true));
    ss, sts := AndThen(ss, sts, ConnInsert(2, true));
    var s6 := ss[6];
    ss, sts := AndThen(ss, sts, ApproveMark(1, now, true));
    var s7 := ss[7];
    ss, sts := AndThen(ss, sts, ApproveMark(2, now, true));
    assert ss[6] == s6 && ss[7] == s7 && sts[6] == ApproveMark(1, now, true) && sts[7] == ApproveMark(2, now, true);
    IsRecorded(ss, sts, 6, 1, now, i + 1, s.nextConn);
    IsRecorded(ss, sts, 7, 2, now, i + 1, s.nextConn + 1);
  }

  lemma IsRecorded(ss: seq<Shared>, sts: seq<Stmt>, u: nat, t: nat, now: int, id: nat, conn: nat)
    requires u < |sts| && |ss| == |sts| + 1 && sts[u] == ApproveMark(t, now, true) && Enabled(ss[u], sts[u])
    requires ss[u].flights[t] == Marking(id, conn) && conn in ss[u].conns
    ensures Recorded(ss, sts, u, id, conn)
  {
  }

  lemma AndThen(ss: seq<Shared>, sts: seq<Stmt>, st: Stmt) returns (ss': seq<Shared>, sts': seq<Stmt>)
    requires Run(ss, sts) && Enabled(ss[|sts|], st)
    ensures sts' == sts + [st] && ss' == ss + [Apply(ss[|sts|], st)] && Run(ss', sts') && |ss'| == |sts'| + 1
  {
    hide Enabled, Apply, Numbered;
    ss', sts' := ss + [Apply(ss[|sts|], st)], sts + [st];
    forall k | 0 <= k < |sts'| ensures Enabled(ss'[k], sts'[k]) && ss'[k + 1] == Apply(ss'[k], sts'[k]) {
      if k < |sts| { assert ss[k + 1] == Apply(ss[k], sts[k]); }
    }
  }
}
