/** The life of one runner: Start gets it running, only a Stop or a Shutdown can end
    it, and it polls at least once before it ends. */
module CollectorLife {
  import opened Collector
  import opened CollectorProps

  // ----- the registry -----

  /** What each step does to the registry: a Start puts a new loop under an id that
      has none, a Stop takes its id out, a Shutdown everything. */
  lemma RegistryAfter(s: State, step: Step, id: Id)
    requires Enabled(s, step)
    ensures var s' := Apply(s, step);
            && (step.Register? && s.calls[step.t].id == id && id !in s.runs ==>
                  id in s'.runs && s'.runs[id] == step.newRunner && step.newRunner in s'.loops && s'.calls[step.t] == StartSpawn(step.newRunner))
            && (step.Register? && s.calls[step.t].id == id && id in s.runs ==>
                  s'.runs == s.runs && s'.loops == s.loops && s'.calls[step.t] == Finished)
            && (step.Take? && s.calls[step.t].id == id ==>
                  id !in s'.runs && (id in s.runs ==> s'.calls[step.t] == Stopping({s.runs[id]}, {s.runs[id]})))
            && (step.TakeAll? ==> id !in s'.runs && s'.calls[step.t] == Stopping(s.runs.Values, s.runs.Values))
            && (!step.TakeAll? && !((step.Take? || step.Register?) && s.calls[step.t].id == id) ==> Has(s'.runs, id) == Has(s.runs, id))
  {
  }

  predicate Removes(s: State, step: Step, id: Id)
    requires Enabled(s, step)
  {
    step.TakeAll? || (step.Take? && s.calls[step.t].id == id)
  }

  lemma StaysRegistered(s: State, step: Step, id: Id)
    requires Enabled(s, step) && id in s.runs && !Removes(s, step, id)
    ensures id in Apply(s, step).runs && Apply(s, step).runs[id] == s.runs[id]
  {
    RegistryAfter(s, step, id);
  }

  /** Until a Stop of its id or a Shutdown, a registered runner stays registered,
      uncancelled and alive. */
  lemma {:induction false} RunsUntilStopped(ss: seq<State>, steps: seq<Step>, i: nat, j: nat, id: Id)
    requires Run(ss, steps) && ss[0] == START && i <= j < |ss| && id in ss[i].runs
    requires forall k | i <= k < j :: !Removes(ss[k], steps[k], id)
    ensures id in ss[j].runs && ss[j].runs[id] == ss[i].runs[id]
    ensures var r := ss[i].runs[id]; r in ss[j].loops && ss[j].loops[r].phase != Exited && !ss[j].loops[r].cancelled && ss[j].loops[r].connId == id
  {
    StartInv();
    RunKeepsInv(ss, steps, j);
    if i < j {
      assert ss[j - 1 + 1] == Apply(ss[j - 1], steps[j - 1]);
      hide Apply, Removes, Placed;
      RunsUntilStopped(ss, steps, i, j - 1, id);
      StaysRegistered(ss[j - 1], steps[j - 1], id);
    }
  }

  // ----- one loop -----

  /** A loop ends only when cancelled, and not before its first poll; it has not
      polled before it was spawned. */
  ghost predicate LoopOk(l: Loop) {
    && (l.phase == Exited ==> l.cancelled && l.ticks > 0)
    && (l.phase == Created ==> l.ticks == 0)
  }

  lemma LoopsOkStep(s: State, step: Step)
    requires Inv(s) && Enabled(s, step) && forall r | r in s.loops :: LoopOk(s.loops[r])
    ensures forall r | r in Apply(s, step).loops :: LoopOk(Apply(s, step).loops[r])
  {
    if step.Spawn? { assert CallOk(s, s.calls[step.t]); }
  }

  lemma {:induction false} LoopsOk(ss: seq<State>, steps: seq<Step>, n: nat)
    requires Run(ss, steps) && ss[0] == START && n < |ss|
    ensures forall r | r in ss[n].loops :: LoopOk(ss[n].loops[r])
  {
    hide Apply, LoopOk, Inv;
    if n > 0 {
      LoopsOk(ss, steps, n - 1);
      StartInv();
      RunKeepsInv(ss, steps, n - 1);
      assert ss[n - 1 + 1] == Apply(ss[n - 1], steps[n - 1]);
      LoopsOkStep(ss[n - 1], steps[n - 1]);
    }
  }

  function Ticks(steps: seq<Step>, r: Runner): nat {
    if steps == [] then 0 else Ticks(steps[..|steps| - 1], r) + if steps[|steps| - 1] == Tick(r) then 1 else 0
  }

  lemma TickStep(s: State, step: Step, r: Runner)
    requires Enabled(s, step)
    ensures r in s.loops ==>
              r in Apply(s, step).loops && Apply(s, step).loops[r].ticks == s.loops[r].ticks + if step == Tick(r) then 1 else 0
    ensures r !in s.loops ==> step != Tick(r) && (r in Apply(s, step).loops ==> Apply(s, step).loops[r].ticks == 0)
  {
  }

  /** A loop's count is the number of times it polled. */
  lemma {:induction false} TicksCounted(ss: seq<State>, steps: seq<Step>, n: nat, r: Runner)
    requires Run(ss, steps) && ss[0] == START && n <= |steps|
    ensures if r in ss[n].loops then ss[n].loops[r].ticks == Ticks(steps[..n], r) else Ticks(steps[..n], r) == 0
  {
    hide Apply;
    if n > 0 {
      TicksCounted(ss, steps, n - 1, r);
      assert steps[..n][..n - 1] == steps[..n - 1];
      assert ss[n - 1 + 1] == Apply(ss[n - 1], steps[n - 1]);
      TickStep(ss[n - 1], steps[n - 1], r);
    }
  }

  // ----- starting -----

  /** The Start that registered r is about to spawn it, or has and it is under way. */
  predicate Starting(s: State, t: nat, r: Runner) {
    t in s.calls && r in s.loops && (s.calls[t] == StartSpawn(r) || (s.calls[t] == Finished && s.loops[r].phase != Created))
  }

  lemma StartingStep(s: State, step: Step, t: nat, r: Runner)
    requires Inv(s) && Enabled(s, step) && Starting(s, t, r)
    ensures Starting(Apply(s, step), t, r)
  {
    if step.Spawn? { assert CallOk(s, s.calls[step.t]); }
  }

  lemma {:induction false} StartingThrough(ss: seq<State>, steps: seq<Step>, i: nat, j: nat, t: nat, r: Runner)
    requires Run(ss, steps) && ss[0] == START && i <= j < |ss| && Starting(ss[i], t, r)
    ensures Starting(ss[j], t, r)
  {
    hide Apply, Starting, Inv;
    if i < j {
      StartingThrough(ss, steps, i, j - 1, t, r);
      StartInv();
      RunKeepsInv(ss, steps, j - 1);
      assert ss[j - 1 + 1] == Apply(ss[j - 1], steps[j - 1]);
      StartingStep(ss[j - 1], steps[j - 1], t, r);
    }
  }

  /** Once a Start that found its id free has returned, and until a Stop of the id or
      a Shutdown, its runner is registered under the id and running. */
  lemma StartedRuns(ss: seq<State>, steps: seq<Step>, i: nat, j: nat)
    requires Run(ss, steps) && ss[0] == START && i < j < |ss| && steps[i].Register?
    requires Enabled(ss[i], steps[i]) && ss[i].calls[steps[i].t].id !in ss[i].runs
    requires steps[i].t in ss[j].calls && ss[j].calls[steps[i].t] == Finished
    requires forall k | i < k < j :: !Removes(ss[k], steps[k], ss[i].calls[steps[i].t].id)
    ensures var id, r := ss[i].calls[steps[i].t].id, steps[i].newRunner;
            && id in ss[j].runs && ss[j].runs[id] == r
            && r in ss[j].loops && ss[j].loops[r].phase == Running && !ss[j].loops[r].cancelled
  {
    var t, r, id := steps[i].t, steps[i].newRunner, ss[i].calls[steps[i].t].id;
    assert ss[i + 1] == Apply(ss[i], steps[i]);
    RegistryAfter(ss[i], steps[i], id);
    assert Starting(ss[i + 1], t, r);
    hide Apply, Removes;
    StartingThrough(ss, steps, i + 1, j, t, r);
    RunsUntilStopped(ss, steps, i + 1, j, id);
  }
}
