/** Runner lifecycle of the observability collector (internal/observ/collector.go):
    Start registers a runner under the lock and spawns its goroutine after it;
    Stop and Shutdown take runners out under the lock, then cancel and wait. */
module Collector {

  datatype Id = ConnId(n: int)

  datatype Runner = Runner(serial: nat)

  /** Created: registered, goroutine not yet running. Exited: done is closed. */
  datatype Phase = Created | Running | Exited

  datatype Loop = Loop(connId: Id, phase: Phase, cancelled: bool, ticks: nat)

  datatype Call =
    | StartCheck(id: Id)
    | StartSpawn(runner: Runner)
    | StopTake(id: Id)
    | ShutdownTake
    | Stopping(toCancel: set<Runner>, toWait: set<Runner>)
    | Finished

  datatype State = State(runs: map<Id, Runner>, loops: map<Runner, Loop>, calls: map<nat, Call>)

  const START := State(map[], map[], map[])

  datatype Step =
    | Begin(t: nat, call: Call)
    | Register(t: nat, newRunner: Runner)
    | Spawn(t: nat)
    | Take(t: nat)
    | TakeAll(t: nat)
    | Cancel(t: nat, r: Runner)
    | Wait(t: nat, r: Runner)
    | Return(t: nat)
    // the goroutine itself
    | Tick(r: Runner)
    | Exit(r: Runner)

  /** The runners a stopping call has taken and not yet seen exit. */
  function Owned(c: Call): set<Runner> {
    if c.Stopping? then c.toWait else {}
  }

  predicate CallEnabled(s: State, c: Call, step: Step) {
    match step
    case Register(_, r) => c.StartCheck? && r !in s.loops
    case Spawn(_) => c.StartSpawn?
    case Take(_) => c.StopTake?
    case TakeAll(_) => c.ShutdownTake?
    case Cancel(_, r) => c.Stopping? && r in c.toCancel
    // Waiting starts when everything is cancelled, and blocks until done is closed.
    case Wait(_, r) => c.Stopping? && c.toCancel == {} && r in c.toWait && r in s.loops && s.loops[r].phase == Exited
    case Return(_) => c.Stopping? && c.toCancel == {} && c.toWait == {}
    case _ => false
  }

  predicate Enabled(s: State, step: Step) {
    match step
    case Begin(t, c) => t !in s.calls && (c.StartCheck? || c.StopTake? || c.ShutdownTake?)
    // The first tick is unconditional; later ones may win the select even when
    // the context is already cancelled.
    case Tick(r) => r in s.loops && s.loops[r].phase == Running
    case Exit(r) => r in s.loops && s.loops[r].phase == Running && s.loops[r].cancelled && s.loops[r].ticks > 0
    case _ => step.t in s.calls && CallEnabled(s, s.calls[step.t], step)
  }

  function After(s: State, t: nat, c: Call): State {
    s.(calls := s.calls[t := c])
  }

  function Has(m: map<Id, Runner>, id: Id): set<Runner> {
    if id in m then {m[id]} else {}
  }

  function Apply(s: State, step: Step): State
    requires Enabled(s, step)
  {
    match step
    case Begin(t, c) => After(s, t, c)
    case Register(t, r) =>
      var id := s.calls[t].id;
      if id in s.runs then After(s, t, Finished)
      else After(s, t, StartSpawn(r)).(runs := s.runs[id := r], loops := s.loops[r := Loop(id, Created, false, 0)])
    case Spawn(t) =>
      var r := s.calls[t].runner;
      if r in s.loops then After(s, t, Finished).(loops := s.loops[r := s.loops[r].(phase := Running)])
      else After(s, t, Finished)
    case Take(t) =>
      var id := s.calls[t].id;
      After(s, t, if id in s.runs then Stopping({s.runs[id]}, {s.runs[id]}) else Finished).(runs := s.runs - {id})
    case TakeAll(t) => After(s, t, Stopping(s.runs.Values, s.runs.Values)).(runs := map[])
    case Cancel(t, r) =>
      var c := s.calls[t];
      var s' := After(s, t, Stopping(c.toCancel - {r}, c.toWait));
      if r in s.loops then s'.(loops := s.loops[r := s.loops[r].(cancelled := true)]) else s'
    case Wait(t, r) =>
      var c := s.calls[t];
      After(s, t, Stopping(c.toCancel, c.toWait - {r}))
    case Return(t) => After(s, t, Finished)
    case Tick(r) => s.(loops := s.loops[r := s.loops[r].(ticks := s.loops[r].ticks + 1)])
    case Exit(r) => s.(loops := s.loops[r := s.loops[r].(phase := Exited)])
  }

  // ----- the locked sections, on the manager's own field -----

  class Manager {
    var runs: map<Id, Runner>

    constructor ()
      ensures runs == START.runs
    {
      runs := map[];
    }

    /** Start: a second Start for an id changes nothing. */
    method Enroll(id: Id, r: Runner) returns (enrolled: bool)
      modifies this
      ensures enrolled <==> id !in old(runs)
      ensures runs == if id in old(runs) then old(runs) else old(runs)[id := r]
    {
      if id in runs { return false; }
      runs := runs[id := r];
      enrolled := true;
    }

    method TakeOne(id: Id) returns (taken: set<Runner>)
      modifies this
      ensures runs == old(runs) - {id} && taken == Has(old(runs), id)
    {
      taken := Has(runs, id);
      runs := runs - {id};
    }

    method TakeEvery() returns (taken: set<Runner>)
      modifies this
      ensures runs == map[] && taken == old(runs).Values
    {
      taken := runs.Values;
      runs := map[];
    }
  }
}
