/** Assembly of lock chains (ListLockChains in internal/observ/locks.go): the
    blocked-by lists of the sessions, turned round into one chain per holder. */
module Locks {
  import opened Base

  datatype Session = Session(pid: int, user: string, query: string, ageMs: int, state: string, blockedBy: seq<int>)

  datatype Chain = Chain(holder: Session, blocked: seq<Session>)

  /** A result row; one with fewer than six columns is unusable. */
  type RawRow = Option<Session>

  /** The sessions by pid: a later row for a pid replaces an earlier one. */
  function SessionsOf(rows: seq<RawRow>): (m: map<int, Session>)
    ensures forall p | p in m :: m[p].pid == p
  {
    if rows == [] then map[]
    else
      var m, last := SessionsOf(rows[..|rows| - 1]), rows[|rows| - 1];
      if last.None? then m else m[last.value.pid := last.value]
  }

  /** Row i is the last usable one for its pid. */
  ghost predicate LastFor(rows: seq<RawRow>, i: nat, p: int) {
    && i < |rows| && rows[i].Some? && rows[i].value.pid == p
    && forall j | i < j < |rows| && rows[j].Some? :: rows[j].value.pid != p
  }

  /** The last row wins: a session is listed under a pid exactly when it is the
      last usable row with that pid. */
  lemma {:induction false} LastRowWins(rows: seq<RawRow>, p: int, s: Session)
    ensures p in SessionsOf(rows) && SessionsOf(rows)[p] == s <==> exists i: nat :: LastFor(rows, i, p) && rows[i].value == s
  {
    if rows != [] {
      var n := |rows| - 1;
      LastRowWins(rows[..n], p, s);
      assert forall i: nat | LastFor(rows, i, p) :: i <= n;
      if rows[n].Some? && rows[n].value.pid == p {
        assert LastFor(rows, n, p);
      } else {
        assert !LastFor(rows, n, p);
        forall i: nat | i != n ensures LastFor(rows, i, p) <==> LastFor(rows[..n], i, p) {
          if LastFor(rows[..n], i, p) {
            forall j | i < j < |rows| && rows[j].Some? ensures rows[j].value.pid != p {
              if j < n { assert rows[..n][j] == rows[j]; }
            }
          }
        }
        assert forall i: nat | LastFor(rows[..n], i, p) :: rows[..n][i] == rows[i];
      }
    }
  }

  predicate Blocks(h: int, s: Session) {
    h in s.blockedBy
  }

  lemma NonEmpty(s: set<int>)
    ensures s == {} || exists p :: p in s
  {
    if !exists p :: p in s { assert s <= {}; }
  }

  /** The pids that block some session. */
  ghost predicate IsHolder(h: int, sessions: map<int, Session>) {
    exists p | p in sessions :: Blocks(h, sessions[p])
  }

  /** A holder that is itself no longer listed is given a placeholder. */
  function HolderEntry(h: int, sessions: map<int, Session>): (s: Session)
    ensures s.pid == h || h in sessions
  {
    if h in sessions then sessions[h] else Session(h, "?", "(no longer in pg_stat_activity)", 0, "", [])
  }

  predicate DistinctPids(ss: seq<Session>) {
    forall i, j | 0 <= i < j < |ss| :: ss[i].pid != ss[j].pid
  }

  /** The chain of holder h: every session h blocks, exactly once, and no other. */
  ghost predicate ChainOf(c: Chain, h: int, sessions: map<int, Session>) {
    && c.holder == HolderEntry(h, sessions)
    && c.holder.pid == h
    && DistinctPids(c.blocked)
    && forall s :: s in c.blocked <==> s.pid in sessions && sessions[s.pid] == s && Blocks(h, s)
  }

  /** One chain per holder, and none for anyone else. */
  ghost predicate Transposes(chains: seq<Chain>, sessions: map<int, Session>) {
    && (forall i, j | 0 <= i < j < |chains| :: chains[i].holder.pid != chains[j].holder.pid)
    && (forall i | 0 <= i < |chains| :: IsHolder(chains[i].holder.pid, sessions) && ChainOf(chains[i], chains[i].holder.pid, sessions))
    && (forall h | IsHolder(h, sessions) :: HasChain(chains, h))
  }

  /** The sessions and holder maps are filled by loops; Go's map iteration
      visits keys in any order, modelled by picking any key not yet visited. */
  method Holders(sessions: map<int, Session>) returns (holders: set<int>)
    ensures forall h :: h in holders <==> IsHolder(h, sessions)
  {
    holders := {};
    var todo := sessions.Keys;
    while todo != {}
      invariant todo <= sessions.Keys
      invariant forall h :: h in holders <==> exists p | p in sessions.Keys - todo :: Blocks(h, sessions[p])
      decreases todo
    {
      NonEmpty(todo);
      var p :| p in todo;
      var s := sessions[p];
      ghost var before := holders;
      var i := 0;
      while i < |s.blockedBy|
        invariant 0 <= i <= |s.blockedBy|
        invariant forall h :: h in holders <==> h in before || h in s.blockedBy[..i]
      {
        holders := holders + {s.blockedBy[i]};
        assert s.blockedBy[..i + 1] == s.blockedBy[..i] + [s.blockedBy[i]];
        i := i + 1;
      }
      assert s.blockedBy[..i] == s.blockedBy;
      ghost var done := sessions.Keys - todo;
      todo := todo - {p};
      assert sessions.Keys - todo == done + {p};
      forall h ensures h in holders <==> exists q | q in sessions.Keys - todo :: Blocks(h, sessions[q]) {
        if h in s.blockedBy { assert Blocks(h, sessions[p]); }
        if h in before {
          var q :| q in done && Blocks(h, sessions[q]);
          assert q in sessions.Keys - todo;
        }
      }
    }
  }

  /** The inner loop: everyone h blocks. */
  method BlockedBy(h: int, sessions: map<int, Session>) returns (blocked: seq<Session>)
    requires forall p | p in sessions :: sessions[p].pid == p
    ensures DistinctPids(blocked)
    ensures forall s :: s in blocked <==> s.pid in sessions && sessions[s.pid] == s && Blocks(h, s)
  {
    blocked := [];
    var todo := sessions.Keys;
    while todo != {}
      invariant todo <= sessions.Keys
      invariant DistinctPids(blocked)
      invariant forall s :: s in blocked <==>
                  s.pid in sessions.Keys - todo && sessions[s.pid] == s && Blocks(h, s)
      decreases todo
    {
      NonEmpty(todo);
      var p :| p in todo;
      var s := sessions[p];
      var found := false;
      var i := 0;
      while i < |s.blockedBy| && !found
        invariant 0 <= i <= |s.blockedBy|
        invariant found <==> h in s.blockedBy[..i]
      {
        found := s.blockedBy[i] == h;
        assert s.blockedBy[..i + 1] == s.blockedBy[..i] + [s.blockedBy[i]];
        i := i + 1;
      }
      assert found <==> Blocks(h, s) by {
        if i == |s.blockedBy| { assert s.blockedBy[..i] == s.blockedBy; }
      }
      assert forall j | 0 <= j < |blocked| :: blocked[j] in blocked && blocked[j].pid != p;
      if found { blocked := blocked + [s]; }
      todo := todo - {p};
    }
  }

  /** The first loop: later rows overwrite earlier ones. */
  method IndexSessions(rows: seq<RawRow>) returns (sessions: map<int, Session>)
    ensures sessions == SessionsOf(rows)
  {
    sessions := map[];
    var k := 0;
    while k < |rows|
      invariant 0 <= k <= |rows|
      invariant sessions == SessionsOf(rows[..k])
    {
      assert rows[..k + 1][..k] == rows[..k];
      if rows[k].Some? { sessions := sessions[rows[k].value.pid := rows[k].value]; }
      k := k + 1;
    }
    assert rows[..k] == rows;
  }

  ghost predicate HasChain(chains: seq<Chain>, h: int) {
    exists i | 0 <= i < |chains| :: chains[i].holder.pid == h
  }

  lemma HasChainSnoc(chains: seq<Chain>, c: Chain, h: int)
    ensures HasChain(chains + [c], h) <==> HasChain(chains, h) || c.holder.pid == h
  {
    if HasChain(chains, h) {
      var i :| 0 <= i < |chains| && chains[i].holder.pid == h;
      assert (chains + [c])[i].holder.pid == h;
    }
    assert (chains + [c])[|chains|] == c;
  }

  method ListLockChains(rows: seq<RawRow>) returns (chains: seq<Chain>)
    ensures Transposes(chains, SessionsOf(rows))
  {
    hide SessionsOf, ChainOf;
    var sessions := IndexSessions(rows);
    var todo := Holders(sessions);
    ghost var holders := todo;
    chains := [];
    while todo != {}
      invariant todo <= holders
      invariant forall h :: h in holders - todo <==> HasChain(chains, h)
      invariant forall i, j | 0 <= i < j < |chains| :: chains[i].holder.pid != chains[j].holder.pid
      invariant forall i | 0 <= i < |chains| :: ChainOf(chains[i], chains[i].holder.pid, sessions)
      decreases todo
    {
      NonEmpty(todo);
      var h :| h in todo;
      var blocked := BlockedBy(h, sessions);
      var c := Chain(HolderEntry(h, sessions), blocked);
      assert ChainOf(c, h, sessions) by { IsChainOf(c, h, sessions); }
      assert c.holder.pid == h;
      assert !HasChain(chains, h);
      forall x ensures HasChain(chains + [c], x) <==> HasChain(chains, x) || c.holder.pid == x {
        HasChainSnoc(chains, c, x);
      }
      forall i | 0 <= i < |chains| ensures chains[i].holder.pid != h {
        assert HasChain(chains, chains[i].holder.pid);
      }
      chains := chains + [c];
      todo := todo - {h};
    }
    forall i | 0 <= i < |chains| ensures IsHolder(chains[i].holder.pid, sessions) {
      assert HasChain(chains, chains[i].holder.pid);
    }
  }

  lemma IsChainOf(c: Chain, h: int, sessions: map<int, Session>)
    requires forall p | p in sessions :: sessions[p].pid == p
    requires c.holder == HolderEntry(h, sessions) && DistinctPids(c.blocked)
    requires forall s :: s in c.blocked <==> s.pid in sessions && sessions[s.pid] == s && Blocks(h, s)
    ensures ChainOf(c, h, sessions)
  {
  }

  /** A holder that is itself listed heads its chain with its own session. */
  lemma HolderIsItself(chains: seq<Chain>, sessions: map<int, Session>, i: nat)
    requires Transposes(chains, sessions) && i < |chains|
    ensures var h := chains[i].holder;
            if h.pid in sessions then h == sessions[h.pid]
            else h.user == "?" && h.query == "(no longer in pg_stat_activity)" && h.blockedBy == []
  {
    assert ChainOf(chains[i], chains[i].holder.pid, sessions);
  }

  // ----- the totals -----

  /** The blocking pairs (holder, waiter), each counted once however often a
      waiter's list repeats a holder. */
  ghost function Pairs(sessions: map<int, Session>): set<(int, int)> {
    set p, h | p in sessions && h in sessions[p].blockedBy :: (h, p)
  }

  function Listed(chains: seq<Chain>): nat {
    if chains == [] then 0 else |chains[0].blocked| + Listed(chains[1..])
  }

  ghost function PidsOf(ss: seq<Session>): set<int> {
    set s | s in ss :: s.pid
  }

  lemma {:induction false} PidCount(ss: seq<Session>)
    requires DistinctPids(ss)
    ensures |PidsOf(ss)| == |ss|
  {
    if ss != [] {
      var rest := ss[1..];
      forall i, j | 0 <= i < j < |rest| ensures rest[i].pid != rest[j].pid {
        assert rest[i] == ss[i + 1] && rest[j] == ss[j + 1];
      }
      PidCount(rest);
      assert ss == [ss[0]] + rest;
      assert forall s :: s in ss <==> s == ss[0] || s in rest;
      forall s | s in rest ensures s.pid != ss[0].pid {
        var i :| 0 <= i < |rest| && rest[i] == s;
        assert ss[0].pid != ss[i + 1].pid;
      }
      assert PidsOf(ss) == PidsOf(rest) + {ss[0].pid};
    }
  }

  ghost function Tagged(h: int, pids: set<int>): set<(int, int)> {
    set p | p in pids :: (h, p)
  }

  lemma {:induction false} TaggedCount(h: int, pids: set<int>)
    ensures |Tagged(h, pids)| == |pids|
    decreases |pids|
  {
    if pids != {} {
      NonEmpty(pids);
      var p :| p in pids;
      TaggedCount(h, pids - {p});
      assert Tagged(h, pids) == Tagged(h, pids - {p}) + {(h, p)};
    }
  }

  ghost function ListedPairs(chains: seq<Chain>): set<(int, int)> {
    if chains == [] then {}
    else Tagged(chains[0].holder.pid, PidsOf(chains[0].blocked)) + ListedPairs(chains[1..])
  }

  lemma {:induction false} ListedPairsCount(chains: seq<Chain>)
    requires forall i, j | 0 <= i < j < |chains| :: chains[i].holder.pid != chains[j].holder.pid
    requires forall i | 0 <= i < |chains| :: DistinctPids(chains[i].blocked)
    ensures |ListedPairs(chains)| == Listed(chains)
  {
    if chains != [] {
      var c := chains[0];
      ListedPairsCount(chains[1..]);
      PidCount(c.blocked);
      TaggedCount(c.holder.pid, PidsOf(c.blocked));
      ListedPairsIn(chains[1..]);
      assert Tagged(c.holder.pid, PidsOf(c.blocked)) !! ListedPairs(chains[1..]);
    }
  }

  lemma {:induction false} ListedPairsIn(chains: seq<Chain>)
    ensures forall h, p :: (h, p) in ListedPairs(chains) <==>
              exists i | 0 <= i < |chains| :: chains[i].holder.pid == h && p in PidsOf(chains[i].blocked)
  {
    if chains != [] {
      ListedPairsIn(chains[1..]);
      forall h, p
        ensures (h, p) in ListedPairs(chains) <==>
                exists i | 0 <= i < |chains| :: chains[i].holder.pid == h && p in PidsOf(chains[i].blocked)
      {
        if (h, p) in ListedPairs(chains[1..]) {
          var i :| 0 <= i < |chains[1..]| && chains[1..][i].holder.pid == h && p in PidsOf(chains[1..][i].blocked);
          assert chains[i + 1].holder.pid == h && p in PidsOf(chains[i + 1].blocked);
        }
        if i :| 0 <= i < |chains| && chains[i].holder.pid == h && p in PidsOf(chains[i].blocked) {
          if i > 0 { assert chains[1..][i - 1].holder.pid == h && p in PidsOf(chains[1..][i - 1].blocked); }
        }
      }
    }
  }

  /** However the rows repeat, the chains list as many sessions as there are
      distinct blocking pairs. */
  lemma ListedTotal(chains: seq<Chain>, sessions: map<int, Session>)
    requires Transposes(chains, sessions)
    requires forall p | p in sessions :: sessions[p].pid == p
    ensures Listed(chains) == |Pairs(sessions)|
  {
    hide ListedPairs, Listed, PidsOf;
    forall i | 0 <= i < |chains| ensures DistinctPids(chains[i].blocked) {
      assert ChainOf(chains[i], chains[i].holder.pid, sessions);
    }
    ListedPairsCount(chains);
    hide Transposes;
    ListedPairsIn(chains);
    forall x: (int, int) ensures x in ListedPairs(chains) <==> x in Pairs(sessions) {
      ListedExactly(chains, sessions, x.0, x.1);
      assert x == (x.0, x.1);
    }
    assert ListedPairs(chains) == Pairs(sessions);
  }

  lemma ListedExactly(chains: seq<Chain>, sessions: map<int, Session>, h: int, p: int)
    requires Transposes(chains, sessions)
    requires forall q | q in sessions :: sessions[q].pid == q
    ensures (exists i | 0 <= i < |chains| :: chains[i].holder.pid == h && p in PidsOf(chains[i].blocked))
            <==> p in sessions && Blocks(h, sessions[p])
  {
    if i :| 0 <= i < |chains| && chains[i].holder.pid == h && p in PidsOf(chains[i].blocked) {
      assert ChainOf(chains[i], h, sessions);
      var s :| s in chains[i].blocked && s.pid == p;
    }
    if p in sessions && Blocks(h, sessions[p]) {
      assert IsHolder(h, sessions);
      assert HasChain(chains, h);
      var i :| 0 <= i < |chains| && chains[i].holder.pid == h;
      assert ChainOf(chains[i], h, sessions);
      assert sessions[p] in chains[i].blocked;
    }
  }
}
