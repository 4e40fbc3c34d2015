/** The connection pool and tunnel manager (internal/postgres/manager.go).
    OpenByID gives up the lock while it reveals, tunnels and dials, so it races
    with other opens, CloseConn and Shutdown. Each locked section and each
    external call is one step of a transition system over any number of calls. */
module PoolManager {
  import opened Base

  /** A connection id. */
  datatype Id = ConnId(n: int)

  /** A thing that was opened and has to be closed once. */
  datatype Res = Pool(serial: nat) | Tunnel(serial: nat)

  /** The two maps under the manager's mutex. */
  datatype Cache = Cache(pools: map<Id, Res>, tunnels: map<Id, Res>)

  function Publish(c: Cache, id: Id, pool: Res, tunnel: Option<Res>): Cache {
    Cache(c.pools[id := pool], if tunnel.Some? then c.tunnels[id := tunnel.value] else c.tunnels)
  }

  function CachedPool(c: Cache, id: Id): Option<Res> {
    if id in c.pools then Some(c.pools[id]) else None
  }

  function Remove(c: Cache, id: Id): Cache {
    Cache(c.pools - {id}, c.tunnels - {id})
  }

  function At<T>(m: map<Id, T>, id: Id): set<T> {
    if id in m then {m[id]} else {}
  }

  /** Where a call has got to. A set in a call holds what only that call can reach. */
  datatype Call =
    | OpenLookup(id: Id)
    | OpenReveal(id: Id)
    | OpenTunnel(id: Id)
    | OpenDial(id: Id, tunnel: Option<Res>)
    | OpenFailed(id: Id, toClose: set<Res>)
    | OpenPublish(id: Id, pool: Res, tunnel: Option<Res>)
    | OpenLost(id: Id, toClose: set<Res>, existing: Res)
    | OpenReturned(id: Id, result: Option<Res>)
    | CloseTake(id: Id)
    | ShutdownTake
    | Closing(toClose: set<Res>)
    | Finished

  function Opt(r: Option<Res>): set<Res> {
    if r.Some? then {r.value} else {}
  }

  function Private(c: Call): set<Res> {
    match c
    case OpenDial(_, t) => Opt(t)
    case OpenFailed(_, rs) => rs
    case OpenPublish(_, p, t) => {p} + Opt(t)
    case OpenLost(_, rs, _) => rs
    case Closing(rs) => rs
    case _ => {}
  }

  predicate Done(c: Call) {
    c.OpenReturned? || c.Finished?
  }

  /** closes counts every Close call; via is the tunnel a pool was dialled through. */
  datatype State = State(
    cache: Cache,
    calls: map<nat, Call>,
    everOpened: set<Res>,
    closes: multiset<Res>,
    via: map<Res, Option<Res>>)

  const START := State(Cache(map[], map[]), map[], {}, multiset{}, map[])

  datatype Step =
    | Begin(t: nat, call: Call)
    | Lookup(t: nat)
    | Reveal(t: nat, ok: bool, tunnelled: bool)
    | DialTunnel(t: nat, dialled: Option<Res>)
    | DialPool(t: nat, dialled: Option<Res>)
    | PublishPool(t: nat)
    | Take(t: nat)
    | TakeAll(t: nat)
    | CloseOne(t: nat, r: Res)
    | Return(t: nat)

  predicate Enabled(s: State, step: Step) {
    if step.Begin? then
      step.t !in s.calls && (step.call.OpenLookup? || step.call.CloseTake? || step.call.ShutdownTake?)
    else
      step.t in s.calls &&
      var c := s.calls[step.t];
      match step
      case Lookup(_) => c.OpenLookup?
      case Reveal(_, _, _) => c.OpenReveal?
      case DialTunnel(_, dialled) => c.OpenTunnel? && (dialled.Some? ==> dialled.value.Tunnel? && dialled.value !in s.everOpened)
      case DialPool(_, dialled) => c.OpenDial? && (dialled.Some? ==> dialled.value.Pool? && dialled.value !in s.everOpened)
      case PublishPool(_) => c.OpenPublish?
      case Take(_) => c.CloseTake?
      case TakeAll(_) => c.ShutdownTake?
      // driver.Close(pool) comes before tunnel.Close() in every path.
      case CloseOne(_, r) =>
        (c.OpenFailed? || c.OpenLost? || c.Closing?) && r in c.toClose
        && (r.Tunnel? ==> forall x | x in c.toClose :: x.Tunnel?)
      case Return(_) => (c.OpenFailed? || c.OpenLost? || c.Closing?) && c.toClose == {}
  }

  function After(s: State, t: nat, c: Call): State {
    s.(calls := s.calls[t := c])
  }

  function Without(c: Call, r: Res): Call
    requires c.OpenFailed? || c.OpenLost? || c.Closing?
  {
    c.(toClose := c.toClose - {r})
  }

  function Apply(s: State, step: Step): State
    requires Enabled(s, step)
  {
    match step
    case Begin(t, call) => After(s, t, call)
    case Lookup(t) =>
      var id := s.calls[t].id;
      After(s, t, if CachedPool(s.cache, id).Some? then OpenReturned(id, CachedPool(s.cache, id)) else OpenReveal(id))
    case Reveal(t, ok, tunnelled) =>
      var id := s.calls[t].id;
      After(s, t, if !ok then OpenReturned(id, None) else if tunnelled then OpenTunnel(id) else OpenDial(id, None))
    case DialTunnel(t, dialled) =>
      var id := s.calls[t].id;
      if dialled.None? then After(s, t, OpenReturned(id, None))
      else After(s, t, OpenDial(id, dialled)).(everOpened := s.everOpened + {dialled.value})
    case DialPool(t, dialled) =>
      var c := s.calls[t];
      if dialled.None? then After(s, t, OpenFailed(c.id, Opt(c.tunnel)))
      else After(s, t, OpenPublish(c.id, dialled.value, c.tunnel)).(
        everOpened := s.everOpened + {dialled.value}, via := s.via[dialled.value := c.tunnel])
    case PublishPool(t) =>
      var c := s.calls[t];
      if c.id in s.cache.pools then After(s, t, OpenLost(c.id, Private(c), s.cache.pools[c.id]))
      else After(s, t, OpenReturned(c.id, Some(c.pool))).(cache := Publish(s.cache, c.id, c.pool, c.tunnel))
    case Take(t) =>
      var id := s.calls[t].id;
      After(s, t, Closing(At(s.cache.pools, id) + At(s.cache.tunnels, id))).(cache := Remove(s.cache, id))
    case TakeAll(t) =>
      After(s, t, Closing(s.cache.pools.Values + s.cache.tunnels.Values)).(cache := Cache(map[], map[]))
    case CloseOne(t, r) =>
      After(s, t, Without(s.calls[t], r)).(closes := s.closes + multiset{r})
    case Return(t) =>
      var c := s.calls[t];
      After(s, t, if c.OpenFailed? then OpenReturned(c.id, None)
                  else if c.OpenLost? then OpenReturned(c.id, Some(c.existing))
                  else Finished)
  }

  // ----- the locked sections, on the manager's own fields -----

  /** The manager's maps, and the four sections that hold its mutex. The steps
      above take the cache through the same functions. */
  class Manager {
    var pools: map<Id, Res>
    var tunnels: map<Id, Res>

    function View(): Cache
      reads this
    {
      Cache(pools, tunnels)
    }

    constructor ()
      ensures View() == START.cache
    {
      pools, tunnels := map[], map[];
    }

    /** Start of OpenByID. */
    method Find(id: Id) returns (pool: Option<Res>)
      ensures pool == CachedPool(View(), id)
    {
      if id in pools { return Some(pools[id]); }
      pool := None;
    }

    /** End of OpenByID: the first to publish wins; a loser keeps what it opened. */
    method TryPublish(id: Id, pool: Res, tunnel: Option<Res>) returns (winner: Res)
      modifies this
      ensures old(id in pools) ==> View() == old(View()) && winner == old(pools)[id]
      ensures old(id !in pools) ==> View() == Publish(old(View()), id, pool, tunnel) && winner == pool
    {
      if id in pools { return pools[id]; }
      pools := pools[id := pool];
      if tunnel.Some? { tunnels := tunnels[id := tunnel.value]; }
      winner := pool;
    }

    method Detach(id: Id) returns (toClose: set<Res>)
      modifies this
      ensures View() == Remove(old(View()), id)
      ensures toClose == At(old(pools), id) + At(old(tunnels), id)
    {
      toClose := At(pools, id) + At(tunnels, id);
      pools := pools - {id};
      tunnels := tunnels - {id};
    }

    method DetachAll() returns (toClose: set<Res>)
      modifies this
      ensures View() == Cache(map[], map[])
      ensures toClose == old(pools).Values + old(tunnels).Values
    {
      toClose := pools.Values + tunnels.Values;
      pools, tunnels := map[], map[];
    }
  }
}
