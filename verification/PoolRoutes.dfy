/** How an OpenByID call goes: through the tunnel exactly when the connection asks
    for one, and failing exactly when one of its steps failed. */
module PoolRoutes {
  import opened Base
  import opened PoolManager
  import opened PoolProps

  // ----- one call over a schedule -----

  /** How far a call has got. */
  function Rank(c: Call): nat {
    match c
    case OpenLookup(_) => 0
    case OpenReveal(_) => 1
    case OpenTunnel(_) => 2
    case OpenDial(_, _) => 3
    case OpenPublish(_, _, _) => 4
    case OpenFailed(_, _) => 5
    case OpenLost(_, _, _) => 5
    case CloseTake(_) => 0
    case ShutdownTake => 0
    case Closing(_) => 5
    case OpenReturned(_, _) => 6
    case Finished => 6
  }

  lemma RankGrows(s: State, step: Step, t: nat)
    requires Enabled(s, step) && t in s.calls
    ensures t in Apply(s, step).calls && Rank(s.calls[t]) <= Rank(Apply(s, step).calls[t])
    ensures step.t != t ==> Apply(s, step).calls[t] == s.calls[t]
    ensures step.t == t && !step.CloseOne? ==> Rank(s.calls[t]) < Rank(Apply(s, step).calls[t])
  {
  }

  lemma {:induction false} RankThrough(ss: seq<State>, steps: seq<Step>, i: nat, j: nat, t: nat)
    requires Run(ss, steps) && i <= j < |ss| && t in ss[i].calls
    ensures t in ss[j].calls && Rank(ss[i].calls[t]) <= Rank(ss[j].calls[t])
  {
    hide Apply, Rank;
    if i < j {
      RankThrough(ss, steps, i, j - 1, t);
      RankGrows(ss[j - 1], steps[j - 1], t);
    }
  }

  /** Two steps of one call come in the order of their ranks. */
  lemma StepsInOrder(ss: seq<State>, steps: seq<Step>, i: nat, j: nat, t: nat)
    requires Run(ss, steps) && i < |steps| && j < |steps| && steps[i].t == steps[j].t == t
    requires t in ss[i].calls && t in ss[j].calls && Rank(ss[i].calls[t]) <= Rank(ss[j].calls[t]) && !steps[j].CloseOne?
    ensures i <= j
  {
    hide Apply, Rank;
    if j < i {
      RankGrows(ss[j], steps[j], t);
      RankThrough(ss, steps, j + 1, i, t);
    }
  }

  /** The step that brought a call to where it is. */
  lemma {:induction false} LastStep(ss: seq<State>, steps: seq<Step>, n: nat, t: nat) returns (m: nat)
    requires Run(ss, steps) && ss[0] == START && n < |ss| && t in ss[n].calls
    ensures m < n && steps[m].t == t && t in ss[m + 1].calls && ss[m + 1].calls[t] == ss[n].calls[t]
    ensures forall k | m < k < n :: steps[k].t != t
  {
    hide Apply;
    assert n > 0;
    assert Enabled(ss[n - 1], steps[n - 1]) && ss[n] == Apply(ss[n - 1], steps[n - 1]);
    if steps[n - 1].t == t {
      m := n - 1;
    } else {
      OthersStay(ss[n - 1], steps[n - 1], t);
      m := LastStep(ss, steps, n - 1, t);
    }
  }

  lemma OthersStay(s: State, step: Step, t: nat)
    requires Enabled(s, step) && step.t != t
    ensures t in Apply(s, step).calls <==> t in s.calls
    ensures t in s.calls ==> Apply(s, step).calls[t] == s.calls[t]
  {
  }

  // ----- the tunnel -----

  /** What led to a call's dialling: its reveal succeeded and, if that asked for a
      tunnel, the tunnel it holds was dialled. */
  lemma DialOrigin(s: State, step: Step)
    requires Enabled(s, step) && step.t in Apply(s, step).calls
    ensures var c := Apply(s, step).calls[step.t];
            && (c.OpenDial? ==> if c.tunnel.Some? then step == DialTunnel(step.t, c.tunnel) else step == Reveal(step.t, true, false))
            && (c.OpenTunnel? ==> step == Reveal(step.t, true, true))
            && (step.DialTunnel? ==> step.t in s.calls && s.calls[step.t].OpenTunnel?)
  {
  }

  lemma FoundReveal(ss: seq<State>, steps: seq<Step>, j: nat, t: nat) returns (i: nat, k: nat)
    requires Run(ss, steps) && ss[0] == START && j < |ss| && t in ss[j].calls && ss[j].calls[t].OpenDial?
    ensures i < j && steps[i] == Reveal(t, true, ss[j].calls[t].tunnel.Some?)
    ensures ss[j].calls[t].tunnel.Some? ==> i < k < j && steps[k] == DialTunnel(t, ss[j].calls[t].tunnel)
  {
    hide Apply, Enabled;
    k := LastStep(ss, steps, j, t);
    assert ss[k + 1] == Apply(ss[k], steps[k]);
    DialOrigin(ss[k], steps[k]);
    if ss[j].calls[t].tunnel.Some? {
      i := LastStep(ss, steps, k, t);
      assert ss[i + 1] == Apply(ss[i], steps[i]);
      DialOrigin(ss[i], steps[i]);
    } else {
      i := k;
    }
  }

  lemma RevealRank(s: State, step: Step)
    requires Enabled(s, step)
    ensures step.Reveal? ==> step.t in s.calls && s.calls[step.t].OpenReveal? && Rank(s.calls[step.t]) == 1
    ensures step.DialPool? ==> step.t in s.calls && s.calls[step.t].OpenDial? && Rank(s.calls[step.t]) == 3
    ensures step.DialPool? && step.dialled.Some? ==>
              step.dialled.value in Apply(s, step).via && Apply(s, step).via[step.dialled.value] == s.calls[step.t].tunnel
  {
  }

  /** In every interleaving, a pool is dialled through a tunnel exactly when the
      connection was revealed to have one, and through the tunnel that call dialled
      in between; and a call whose reveal failed never dials. */
  lemma TunnelAsRevealed(ss: seq<State>, steps: seq<Step>, i: nat, j: nat, t: nat, ok: bool, tunnelled: bool, p: Res)
    requires Run(ss, steps) && ss[0] == START && i < |steps| && j < |steps|
    requires steps[i] == Reveal(t, ok, tunnelled) && steps[j] == DialPool(t, Some(p))
    ensures i < j && ok && p in ss[j + 1].via && (ss[j + 1].via[p].Some? <==> tunnelled)
    ensures tunnelled ==> exists k :: i < k < j && steps[k] == DialTunnel(t, ss[j + 1].via[p])
  {
    assert Enabled(ss[i], steps[i]) && Enabled(ss[j], steps[j]) && ss[j + 1] == Apply(ss[j], steps[j]);
    RevealRank(ss[i], steps[i]);
    RevealRank(ss[j], steps[j]);
    var i', k := FoundReveal(ss, steps, j, t);
    assert Enabled(ss[i'], steps[i']);
    RevealRank(ss[i'], steps[i']);
    hide Apply, Enabled, Rank;
    StepsInOrder(ss, steps, i, i', t);
    StepsInOrder(ss, steps, i', i, t);
  }

  lemma ViaStays(s: State, step: Step, p: Res)
    requires Inv(s) && Enabled(s, step) && p in s.via
    ensures p in Apply(s, step).via && Apply(s, step).via[p] == s.via[p]
  {
    hide Conserved;
  }

  /** The way a pool was dialled never changes. */
  lemma {:induction false} ViaThrough(ss: seq<State>, steps: seq<Step>, i: nat, j: nat, p: Res)
    requires Run(ss, steps) && ss[0] == START && i <= j < |ss| && p in ss[i].via
    ensures p in ss[j].via && ss[j].via[p] == ss[i].via[p]
  {
    hide Apply, Inv;
    if i < j {
      ViaThrough(ss, steps, i, j - 1, p);
      StartInv();
      RunKeepsInv(ss, steps, j - 1);
      ViaStays(ss[j - 1], steps[j - 1], p);
    }
  }

  // ----- what a call returns -----

  /** A step at which an open fails. */
  predicate Fails(step: Step, t: nat) {
    step == Reveal(t, false, true) || step == Reveal(t, false, false) || step == DialTunnel(t, None) || step == DialPool(t, None)
  }

  predicate Doomed(c: Call) {
    c.OpenFailed? || (c.OpenReturned? && c.result.None?)
  }

  lemma FailStep(s: State, step: Step, t: nat)
    requires Enabled(s, step) && t in Apply(s, step).calls
    ensures Doomed(Apply(s, step).calls[t]) <==> (t in s.calls && Doomed(s.calls[t])) || Fails(step, t)
    ensures Fails(step, t) ==> Apply(s, step).everOpened == s.everOpened
  {
  }

  lemma FailStepNew(s: State, step: Step, t: nat)
    requires Enabled(s, step) && t !in Apply(s, step).calls
    ensures t !in s.calls && !Fails(step, t)
  {
  }

  /** In every interleaving a call returns no pool, or is bound to, exactly when its
      reveal, its tunnel or its dial failed. */
  lemma {:induction false} FailsIff(ss: seq<State>, steps: seq<Step>, n: nat, t: nat)
    requires Run(ss, steps) && ss[0] == START && n < |ss|
    ensures (t in ss[n].calls && Doomed(ss[n].calls[t])) <==> exists m :: 0 <= m < n && Fails(steps[m], t)
  {
    hide Apply, Enabled, Fails, Doomed;
    if n > 0 {
      FailsIff(ss, steps, n - 1, t);
      assert Enabled(ss[n - 1], steps[n - 1]) && ss[n] == Apply(ss[n - 1], steps[n - 1]);
      if t in ss[n].calls { FailStep(ss[n - 1], steps[n - 1], t); } else { FailStepNew(ss[n - 1], steps[n - 1], t); }
    }
  }

  // ----- the cache -----

  /** What each step does to the cache: a close takes out its id, a shutdown takes
      out everything, and publishing puts a pool under an id that has none. */
  lemma CacheAfter(s: State, step: Step, id: Id)
    requires Enabled(s, step)
    ensures var before, after := s.cache, Apply(s, step).cache;
            && (step.Take? && s.calls[step.t].id == id ==> id !in after.pools && id !in after.tunnels)
            && (step.TakeAll? ==> id !in after.pools && id !in after.tunnels)
            && (step.PublishPool? && s.calls[step.t].id == id ==>
                  id in after.pools && after.pools[id] == (if id in before.pools then before.pools[id] else s.calls[step.t].pool))
            && (!step.TakeAll? && !((step.Take? || step.PublishPool?) && s.calls[step.t].id == id) ==>
                  CachedPool(after, id) == CachedPool(before, id) && At(after.tunnels, id) == At(before.tunnels, id))
  {
  }
}
