/** What every interleaving of OpenByID, CloseConn and Shutdown keeps: nothing
    leaks, nothing is closed twice, tunnels stay with their pools. */
module PoolProps {
  import opened Base
  import opened PoolManager

  // ----- where a resource is -----

  datatype Place = Cached(id: Id) | With(t: nat) | Closed

  predicate Is(s: State, r: Res, pl: Place) {
    match pl
    case Cached(id) => (id in s.cache.pools && s.cache.pools[id] == r) || (id in s.cache.tunnels && s.cache.tunnels[id] == r)
    case With(t) => t in s.calls && r in Private(s.calls[t])
    case Closed => s.closes[r] > 0
  }

  ghost predicate Somewhere(s: State, r: Res) {
    exists pl :: Is(s, r, pl)
  }

  /** Every opened resource is in one place and one only, and closed at most once. */
  ghost predicate Conserved(s: State) {
    && (forall r | r in s.everOpened :: Somewhere(s, r))
    && (forall r, pl | Is(s, r, pl) :: r in s.everOpened)
    && (forall r, pl, pl' | Is(s, r, pl) && Is(s, r, pl') :: pl == pl')
    && (forall r :: s.closes[r] <= 1)
  }

  predicate TypedCall(s: State, c: Call) {
    match c
    case OpenDial(_, t) => t.Some? ==> t.value.Tunnel?
    case OpenPublish(_, p, t) => p.Pool? && (t.Some? ==> t.value.Tunnel?) && p in s.via && s.via[p] == t
    case _ => true
  }

  /** The tunnel cached under an id is the one its cached pool was dialled
      through, and none is cached without its pool. */
  ghost predicate Paired(s: State) {
    && (forall id | id in s.cache.pools :: s.cache.pools[id].Pool? && s.cache.pools[id] in s.via)
    && (forall id | id in s.cache.pools :: s.via[s.cache.pools[id]] == (if id in s.cache.tunnels then Some(s.cache.tunnels[id]) else None))
    && (forall id | id in s.cache.tunnels :: id in s.cache.pools && s.cache.tunnels[id].Tunnel?)
    && (forall t | t in s.calls :: TypedCall(s, s.calls[t]))
    && (forall p | p in s.via :: p in s.everOpened)
  }

  ghost predicate Inv(s: State) {
    Conserved(s) && Paired(s)
  }

  // ----- every step keeps it -----

  /** Exactly the resources in moved change place; newly opened ones are among them. */
  ghost predicate Moves(s: State, s': State, moved: map<Res, Place>) {
    && (forall r, pl :: Is(s', r, pl) <==> if r in moved then pl == moved[r] else Is(s, r, pl))
    && s'.everOpened == s.everOpened + moved.Keys
    && (forall r :: s'.closes[r] <= 1)
  }

  lemma MovesConserve(s: State, s': State, moved: map<Res, Place>)
    requires Conserved(s) && Moves(s, s', moved)
    ensures Conserved(s')
  {
    hide Is;
    forall r | r in s'.everOpened ensures Somewhere(s', r) {
      if r in moved {
        assert Is(s', r, moved[r]);
      } else {
        var pl :| Is(s, r, pl);
        assert Is(s', r, pl);
      }
    }
  }

  lemma StartInv()
    ensures Inv(START)
  {
  }

  /** Steps that only move a call on, holding what it held. */
  lemma CallStep(s: State, t: nat, c: Call)
    requires Inv(s)
    requires Private(c) == (if t in s.calls then Private(s.calls[t]) else {}) && TypedCall(s, c)
    ensures Inv(After(s, t, c))
  {
    assert Moves(s, After(s, t, c), map[]);
    MovesConserve(s, After(s, t, c), map[]);
  }

  lemma DialTunnelStep(s: State, t: nat, dialled: Res)
    requires Inv(s) && Enabled(s, DialTunnel(t, Some(dialled)))
    ensures Inv(Apply(s, DialTunnel(t, Some(dialled))))
  {
    var s' := Apply(s, DialTunnel(t, Some(dialled)));
    forall r, pl ensures Is(s', r, pl) <==> if r == dialled then pl == With(t) else Is(s, r, pl) {
      assert Is(s, r, pl) ==> r in s.everOpened;
    }
    MovesConserve(s, s', map[dialled := With(t)]);
  }

  lemma DialPoolMoves(s: State, t: nat, dialled: Res)
    requires Conserved(s) && Enabled(s, DialPool(t, Some(dialled)))
    ensures Conserved(Apply(s, DialPool(t, Some(dialled))))
  {
    var s' := Apply(s, DialPool(t, Some(dialled)));
    forall r, pl ensures Is(s', r, pl) <==> if r == dialled then pl == With(t) else Is(s, r, pl) {
      assert Is(s, r, pl) ==> r in s.everOpened;
    }
    MovesConserve(s, s', map[dialled := With(t)]);
  }

  lemma DialPoolPairs(s: State, t: nat, dialled: Res)
    requires Inv(s) && Enabled(s, DialPool(t, Some(dialled)))
    ensures Paired(Apply(s, DialPool(t, Some(dialled))))
  {
    hide Conserved;
    assert dialled !in s.via;
    var s' := Apply(s, DialPool(t, Some(dialled)));
    forall u | u in s'.calls ensures TypedCall(s', s'.calls[u]) {
      if u != t { assert TypedCall(s, s.calls[u]); } else { assert TypedCall(s, s.calls[t]); }
    }
  }

  lemma PublishMoves(s: State, t: nat)
    requires Conserved(s) && Enabled(s, PublishPool(t))
    requires s.calls[t].id !in s.cache.pools && s.calls[t].id !in s.cache.tunnels
    requires s.calls[t].pool.Pool? && (s.calls[t].tunnel.Some? ==> s.calls[t].tunnel.value.Tunnel?)
    ensures Conserved(Apply(s, PublishPool(t)))
  {
    var c := s.calls[t];
    var s' := Apply(s, PublishPool(t));
    var moved := map r | r in Private(c) :: Cached(c.id);
    assert Private(s'.calls[t]) == {};
    assert forall r | r in Private(c) :: Is(s, r, With(t));
    forall r, pl ensures Is(s', r, pl) <==> if r in moved then pl == moved[r] else Is(s, r, pl) {
      if r in moved { assert Is(s, r, pl) ==> pl == With(t); }
    }
    MovesConserve(s, s', moved);
  }

  lemma PublishReady(s: State, t: nat)
    requires Paired(s) && Enabled(s, PublishPool(t)) && s.calls[t].id !in s.cache.pools
    ensures s.calls[t].id !in s.cache.tunnels
    ensures s.calls[t].pool.Pool? && (s.calls[t].tunnel.Some? ==> s.calls[t].tunnel.value.Tunnel?)
  {
    assert TypedCall(s, s.calls[t]);
  }

  lemma PublishPairs(s: State, t: nat)
    requires Inv(s) && Enabled(s, PublishPool(t)) && s.calls[t].id !in s.cache.pools
    ensures Paired(Apply(s, PublishPool(t)))
  {
    hide Conserved;
    var s' := Apply(s, PublishPool(t));
    assert TypedCall(s, s.calls[t]);
    forall u | u in s'.calls ensures TypedCall(s', s'.calls[u]) {
      if u != t { assert TypedCall(s, s.calls[u]); }
    }
  }

  lemma TakeMoves(s: State, t: nat)
    requires Conserved(s) && Enabled(s, Take(t))
    ensures Conserved(Apply(s, Take(t)))
  {
    var id := s.calls[t].id;
    var s' := Apply(s, Take(t));
    var taken := At(s.cache.pools, id) + At(s.cache.tunnels, id);
    var moved := map r | r in taken :: With(t);
    assert Private(s'.calls[t]) == taken && Private(s.calls[t]) == {};
    forall r, pl ensures Is(s', r, pl) <==> if r in moved then pl == moved[r] else Is(s, r, pl) {
      if r in moved {
        assert Is(s, r, Cached(id));
        assert Is(s, r, pl) ==> pl == Cached(id);
      }
    }
    assert forall r | r in taken :: Is(s, r, Cached(id));
    MovesConserve(s, s', moved);
  }

  lemma TakePairs(s: State, t: nat)
    requires Paired(s) && Enabled(s, Take(t))
    ensures Paired(Apply(s, Take(t)))
  {
    var s' := Apply(s, Take(t));
    forall u | u in s'.calls ensures TypedCall(s', s'.calls[u]) {
      if u != t { assert TypedCall(s, s.calls[u]); }
    }
  }

  lemma TakeAllMoves(s: State, t: nat)
    requires Conserved(s) && Enabled(s, TakeAll(t))
    ensures Conserved(Apply(s, TakeAll(t)))
  {
    var s' := Apply(s, TakeAll(t));
    var taken := s.cache.pools.Values + s.cache.tunnels.Values;
    var moved := map r | r in taken :: With(t);
    assert Private(s'.calls[t]) == taken && Private(s.calls[t]) == {};
    forall r | r in taken ensures exists id :: Is(s, r, Cached(id)) { WhereCached(s, r); }
    forall r, pl ensures Is(s', r, pl) <==> if r in moved then pl == moved[r] else Is(s, r, pl) {
      if r in moved {
        var id :| Is(s, r, Cached(id));
        assert Is(s, r, pl) ==> pl == Cached(id);
      }
    }
    MovesConserve(s, s', moved);
  }

  lemma TakeAllPairs(s: State, t: nat)
    requires Paired(s) && Enabled(s, TakeAll(t))
    ensures Paired(Apply(s, TakeAll(t)))
  {
    var s' := Apply(s, TakeAll(t));
    forall u | u in s'.calls ensures TypedCall(s', s'.calls[u]) {
      if u != t { assert TypedCall(s, s.calls[u]); }
    }
  }

  lemma WhereCached(s: State, r: Res)
    requires r in s.cache.pools.Values + s.cache.tunnels.Values
    ensures exists id :: Is(s, r, Cached(id))
  {
    if r in s.cache.pools.Values {
      var id :| id in s.cache.pools && s.cache.pools[id] == r;
      assert Is(s, r, Cached(id));
    } else {
      var id :| id in s.cache.tunnels && s.cache.tunnels[id] == r;
      assert Is(s, r, Cached(id));
    }
  }

  lemma CloseStep(s: State, t: nat, r: Res)
    requires Inv(s) && Enabled(s, CloseOne(t, r))
    ensures Inv(Apply(s, CloseOne(t, r)))
  {
    var s' := Apply(s, CloseOne(t, r));
    assert Is(s, r, With(t));
    assert !Is(s, r, Closed);
    forall x, pl ensures Is(s', x, pl) <==> if x == r then pl == Closed else Is(s, x, pl) {
      assert x == r && Is(s, r, pl) ==> pl == With(t);
    }
    MovesConserve(s, s', map[r := Closed]);
  }

  lemma StepKeepsInv(s: State, step: Step)
    requires Inv(s) && Enabled(s, step)
    ensures Inv(Apply(s, step))
  {
    hide Conserved, Paired, Is;
    match step
    case Begin(t, call) => CallStep(s, t, call);
    case Lookup(t) =>
      var id := s.calls[t].id;
      CallStep(s, t, if id in s.cache.pools then OpenReturned(id, Some(s.cache.pools[id])) else OpenReveal(id));
    case Reveal(t, ok, tunnelled) => CallStep(s, t, Apply(s, step).calls[t]);
    case DialTunnel(t, dialled) =>
      if dialled.None? { CallStep(s, t, OpenReturned(s.calls[t].id, None)); } else { DialTunnelStep(s, t, dialled.value); }
    case DialPool(t, dialled) =>
      if dialled.None? { CallStep(s, t, OpenFailed(s.calls[t].id, Opt(s.calls[t].tunnel))); } else { DialPoolMoves(s, t, dialled.value); DialPoolPairs(s, t, dialled.value); }
    case PublishPool(t) =>
      var c := s.calls[t];
      if c.id in s.cache.pools { CallStep(s, t, OpenLost(c.id, Private(c), s.cache.pools[c.id])); } else { PublishReady(s, t); PublishMoves(s, t); PublishPairs(s, t); }
    case Take(t) => TakeMoves(s, t); TakePairs(s, t);
    case TakeAll(t) => TakeAllMoves(s, t); TakeAllPairs(s, t);
    case CloseOne(t, r) => CloseStep(s, t, r);
    case Return(t) => CallStep(s, t, Apply(s, step).calls[t]);
  }

  // ----- whole runs -----

  /** The state after each step of a schedule; every step was enabled. */
  ghost predicate Run(ss: seq<State>, steps: seq<Step>) {
    && |ss| == |steps| + 1
    && forall i | 0 <= i < |steps| :: Enabled(ss[i], steps[i]) && ss[i + 1] == Apply(ss[i], steps[i])
  }

  lemma {:induction false} RunKeepsInv(ss: seq<State>, steps: seq<Step>, n: nat)
    requires Run(ss, steps) && Inv(ss[0]) && n < |ss|
    ensures Inv(ss[n])
  {
    hide Inv;
    if n > 0 {
      RunKeepsInv(ss, steps, n - 1);
      StepKeepsInv(ss[n - 1], steps[n - 1]);
    }
  }

  ghost function ClosedSet(s: State): set<Res> {
    set r | r in s.closes
  }

  function Pools(rs: set<Res>): set<Res> {
    set r | r in rs && r.Pool?
  }

  function Tunnels(rs: set<Res>): set<Res> {
    set r | r in rs && r.Tunnel?
  }

  ghost predicate Quiet(s: State) {
    forall t | t in s.calls :: Done(s.calls[t])
  }

  lemma {:induction false} ValueCount(m: map<Id, Res>)
    requires forall i, j | i in m && j in m && i != j :: m[i] != m[j]
    ensures |m.Values| == |m|
    decreases |m|
  {
    if m.Keys != {} {
      var i :| i in m.Keys;
      var rest := m - {i};
      assert rest.Keys == m.Keys - {i};
      ValueCount(rest);
      assert m.Values == rest.Values + {m[i]} by {
        forall v | v in m.Values ensures v in rest.Values + {m[i]} {
          var j :| j in m && m[j] == v;
          if j != i { assert j in rest && rest[j] == v; }
        }
      }
      assert m[i] !in rest.Values;
    } else {
      assert m == map[];
    }
  }

  /** With no call in flight, what is open is exactly what is cached. */
  lemma QuietSets(s: State)
    requires Inv(s) && Quiet(s)
    ensures Pools(s.everOpened) - ClosedSet(s) == s.cache.pools.Values
    ensures Tunnels(s.everOpened) - ClosedSet(s) == s.cache.tunnels.Values
    ensures ClosedSet(s) <= s.everOpened
  {
    forall r | r in ClosedSet(s) ensures r in s.everOpened { assert Is(s, r, Closed); }
    forall r
      ensures r in Pools(s.everOpened) - ClosedSet(s) <==> r in s.cache.pools.Values
      ensures r in Tunnels(s.everOpened) - ClosedSet(s) <==> r in s.cache.tunnels.Values
    {
      QuietPlace(s, r);
    }
  }

  lemma CachedApart(s: State)
    requires Conserved(s)
    ensures |s.cache.pools.Values| == |s.cache.pools| && |s.cache.tunnels.Values| == |s.cache.tunnels|
  {
    forall i, j | i in s.cache.pools && j in s.cache.pools && i != j ensures s.cache.pools[i] != s.cache.pools[j] {
      assert Is(s, s.cache.pools[i], Cached(i)) && Is(s, s.cache.pools[j], Cached(j));
    }
    forall i, j | i in s.cache.tunnels && j in s.cache.tunnels && i != j ensures s.cache.tunnels[i] != s.cache.tunnels[j] {
      assert Is(s, s.cache.tunnels[i], Cached(i)) && Is(s, s.cache.tunnels[j], Cached(j));
    }
    ValueCount(s.cache.pools);
    ValueCount(s.cache.tunnels);
  }

  lemma PoolDifference(all: set<Res>, part: set<Res>)
    requires part <= all
    ensures |Pools(all)| - |Pools(part)| == |Pools(all) - part|
  {
    assert Pools(all) - part == Pools(all) - Pools(part);
  }

  lemma TunnelDifference(all: set<Res>, part: set<Res>)
    requires part <= all
    ensures |Tunnels(all)| - |Tunnels(part)| == |Tunnels(all) - part|
  {
    assert Tunnels(all) - part == Tunnels(all) - Tunnels(part);
  }

  lemma QuietCounts(s: State)
    requires Inv(s) && Quiet(s)
    ensures |Pools(s.everOpened)| - |Pools(ClosedSet(s))| == |s.cache.pools|
    ensures |Tunnels(s.everOpened)| - |Tunnels(ClosedSet(s))| == |s.cache.tunnels|
  {
    QuietSets(s);
    CachedApart(s);
    hide Inv, Quiet, Pools, Tunnels, ClosedSet;
    PoolDifference(s.everOpened, ClosedSet(s));
    TunnelDifference(s.everOpened, ClosedSet(s));
  }

  lemma QuietPlace(s: State, r: Res)
    requires Inv(s) && Quiet(s)
    ensures r in s.everOpened && r !in ClosedSet(s) <==> r in s.cache.pools.Values || r in s.cache.tunnels.Values
    ensures r in s.cache.pools.Values ==> r.Pool?
    ensures r in s.cache.tunnels.Values ==> r.Tunnel?
  {
    if r in s.everOpened && r !in ClosedSet(s) {
      var pl :| Is(s, r, pl);
      assert pl.Cached?;
    }
    if r in s.cache.pools.Values || r in s.cache.tunnels.Values {
      WhereCached(s, r);
      var id :| Is(s, r, Cached(id));
      assert !Is(s, r, Closed);
    }
  }

  /** In every interleaving of OpenByID, CloseConn and Shutdown, each pool and
      tunnel ever opened is in exactly one of: the cache, one call's hands,
      or closed, and closed at most once; what is cached is not closed. */
  lemma AlwaysConserved(ss: seq<State>, steps: seq<Step>, n: nat, r: Res)
    requires Run(ss, steps) && ss[0] == START && n < |ss| && r in ss[n].everOpened
    ensures exists pl :: Is(ss[n], r, pl) && forall pl' | Is(ss[n], r, pl') :: pl' == pl
    ensures ss[n].closes[r] <= 1
    ensures r in ss[n].cache.pools.Values + ss[n].cache.tunnels.Values ==> ss[n].closes[r] == 0
  {
    StartInv();
    RunKeepsInv(ss, steps, n);
    var s := ss[n];
    assert Somewhere(s, r);
    var pl :| Is(s, r, pl);
    assert forall pl' | Is(s, r, pl') :: pl' == pl;
    if r in s.cache.pools.Values + s.cache.tunnels.Values {
      WhereCached(s, r);
      assert !Is(s, r, Closed);
    }
  }

  /** In every interleaving, a lookup that finds a pool ends the call with a pool
      that was opened and not closed, and opens and closes nothing; one that finds
      none means no pool of that id is cached. */
  lemma FoundIsOpen(ss: seq<State>, steps: seq<Step>, n: nat)
    requires Run(ss, steps) && ss[0] == START && n < |steps| && steps[n].Lookup?
    ensures var t := steps[n].t;
            var id, c := ss[n].calls[t].id, ss[n + 1].calls[t];
            && ss[n + 1].cache == ss[n].cache && ss[n + 1].everOpened == ss[n].everOpened && ss[n + 1].closes == ss[n].closes
            && (c.OpenReturned? ==> c.result.Some? && c.result.value.Pool? && c.result.value in ss[n].everOpened
                                    && ss[n].closes[c.result.value] == 0)
            && (!c.OpenReturned? ==> id !in ss[n].cache.pools)
  {
    StartInv();
    RunKeepsInv(ss, steps, n);
    assert Enabled(ss[n], steps[n]) && ss[n + 1] == Apply(ss[n], steps[n]);
    var id := ss[n].calls[steps[n].t].id;
    if id in ss[n].cache.pools {
      var p := ss[n].cache.pools[id];
      assert Is(ss[n], p, Cached(id));
      assert !Is(ss[n], p, Closed);
    }
  }

  /** Nothing leaks: once every call has returned, opened minus closed is the
      cache, for pools and for tunnels, failed opens included. */
  lemma NothingLeaks(ss: seq<State>, steps: seq<Step>, n: nat)
    requires Run(ss, steps) && ss[0] == START && n < |ss| && Quiet(ss[n])
    ensures |Pools(ss[n].everOpened)| - |Pools(ClosedSet(ss[n]))| == |ss[n].cache.pools|
    ensures |Tunnels(ss[n].everOpened)| - |Tunnels(ClosedSet(ss[n]))| == |ss[n].cache.tunnels|
  {
    hide Inv, Run;
    StartInv();
    RunKeepsInv(ss, steps, n);
    QuietCounts(ss[n]);
  }

  /** Publishing never overwrites a tunnel, and each cached tunnel is the one
      its pool was dialled through. */
  lemma TunnelsPaired(ss: seq<State>, steps: seq<Step>, n: nat, id: Id)
    requires Run(ss, steps) && ss[0] == START && n < |ss|
    ensures id in ss[n].cache.tunnels ==>
              id in ss[n].cache.pools && ss[n].cache.pools[id] in ss[n].via
              && ss[n].via[ss[n].cache.pools[id]] == Some(ss[n].cache.tunnels[id])
    ensures id !in ss[n].cache.pools ==> id !in ss[n].cache.tunnels
  {
    StartInv();
    RunKeepsInv(ss, steps, n);
  }

  // ----- the same pool for every caller -----

  /** The pool an OpenByID call settles on in this step, inside the lock. */
  function Resolves(s: State, step: Step): Option<(Id, Res)>
    requires Enabled(s, step)
  {
    match step
    case Lookup(t) =>
      var id := s.calls[t].id;
      if id in s.cache.pools then Some((id, s.cache.pools[id])) else None
    case PublishPool(t) =>
      var c := s.calls[t];
      Some((c.id, if c.id in s.cache.pools then s.cache.pools[c.id] else c.pool))
    case _ => None
  }

  predicate Removes(s: State, step: Step, id: Id)
    requires Enabled(s, step)
  {
    step.TakeAll? || (step.Take? && s.calls[step.t].id == id)
  }

  /** The pool a call returned or is bound to return. */
  function ResultOf(c: Call): Option<Res> {
    if c.OpenReturned? then c.result else if c.OpenLost? then Some(c.existing) else None
  }

  lemma ResolvedIsCached(s: State, step: Step)
    requires Enabled(s, step) && Resolves(s, step).Some?
    ensures var (id, p) := Resolves(s, step).value;
            var s' := Apply(s, step);
            id in s'.cache.pools && s'.cache.pools[id] == p && ResultOf(s'.calls[step.t]) == Some(p)
  {
  }

  lemma StaysCached(s: State, step: Step, id: Id)
    requires Enabled(s, step) && id in s.cache.pools && !Removes(s, step, id)
    ensures id in Apply(s, step).cache.pools && Apply(s, step).cache.pools[id] == s.cache.pools[id]
  {
  }

  lemma ResultStays(s: State, step: Step, t: nat, p: Res)
    requires Enabled(s, step) && t in s.calls && ResultOf(s.calls[t]) == Some(p)
    ensures t in Apply(s, step).calls && ResultOf(Apply(s, step).calls[t]) == Some(p)
  {
  }

  lemma {:induction false} CachedThrough(ss: seq<State>, steps: seq<Step>, i: nat, j: nat, id: Id)
    requires Run(ss, steps) && i <= j < |ss| && id in ss[i].cache.pools
    requires forall k | i <= k < j :: !Removes(ss[k], steps[k], id)
    ensures id in ss[j].cache.pools && ss[j].cache.pools[id] == ss[i].cache.pools[id]
  {
    hide Apply, Removes;
    if i < j {
      CachedThrough(ss, steps, i, j - 1, id);
      StaysCached(ss[j - 1], steps[j - 1], id);
    }
  }

  lemma {:induction false} ResultThrough(ss: seq<State>, steps: seq<Step>, i: nat, j: nat, t: nat, p: Res)
    requires Run(ss, steps) && i <= j < |ss| && t in ss[i].calls && ResultOf(ss[i].calls[t]) == Some(p)
    ensures t in ss[j].calls && ResultOf(ss[j].calls[t]) == Some(p)
  {
    hide Apply, ResultOf;
    if i < j {
      ResultThrough(ss, steps, i, j - 1, t, p);
      ResultStays(ss[j - 1], steps[j - 1], t, p);
    }
  }

  /** Two OpenByID calls for one id that settle at steps i < j, with no removal
      of that id in between, return the same pool. */
  lemma SameInstance(ss: seq<State>, steps: seq<Step>, i: nat, j: nat, id: Id, p: Res, q: Res)
    requires Run(ss, steps) && i < j < |steps|
    requires Resolves(ss[i], steps[i]) == Some((id, p)) && Resolves(ss[j], steps[j]) == Some((id, q))
    requires forall k | i < k < j :: !Removes(ss[k], steps[k], id)
    ensures p == q
    ensures forall n | j < n < |ss| ::
              steps[i].t in ss[n].calls && ResultOf(ss[n].calls[steps[i].t]) == Some(p)
              && steps[j].t in ss[n].calls && ResultOf(ss[n].calls[steps[j].t]) == Some(p)
  {
    hide Apply, ResultOf, Removes;
    ResolvedIsCached(ss[i], steps[i]);
    ResolvedIsCached(ss[j], steps[j]);
    CachedThrough(ss, steps, i + 1, j, id);
    ResolvesToCached(ss[j], steps[j], id);
    forall n | j < n < |ss|
      ensures steps[i].t in ss[n].calls && ResultOf(ss[n].calls[steps[i].t]) == Some(p)
      ensures steps[j].t in ss[n].calls && ResultOf(ss[n].calls[steps[j].t]) == Some(p)
    {
      StepHasCall(ss[i], steps[i]);
      StepHasCall(ss[j], steps[j]);
      ResultThrough(ss, steps, i + 1, n, steps[i].t, p);
      ResultThrough(ss, steps, j + 1, n, steps[j].t, q);
    }
  }

  lemma StepHasCall(s: State, step: Step)
    requires Enabled(s, step)
    ensures step.t in Apply(s, step).calls
  {
  }

  lemma ResolvesToCached(s: State, step: Step, id: Id)
    requires Enabled(s, step) && Resolves(s, step).Some? && Resolves(s, step).value.0 == id
    requires id in s.cache.pools
    ensures Resolves(s, step).value.1 == s.cache.pools[id]
  {
  }
}
