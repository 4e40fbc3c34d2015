/** What every interleaving of Start, Stop, Shutdown and the loops keeps: each
    live loop has one owner, and a stopped runner stays stopped. */
module CollectorProps {
  import opened Collector

  // ----- what every step keeps -----

  datatype Place = Registered(id: Id) | Taken(t: nat)

  predicate Is(s: State, r: Runner, pl: Place) {
    match pl
    case Registered(id) => id in s.runs && s.runs[id] == r
    case Taken(t) => t in s.calls && r in Owned(s.calls[t])
  }

  predicate Live(s: State, r: Runner) {
    r in s.loops && s.loops[r].phase != Exited
  }

  ghost predicate Somewhere(s: State, r: Runner) {
    exists pl :: Is(s, r, pl)
  }

  /** Every live loop is registered or owned by one stopping call, never both. */
  ghost predicate Placed(s: State) {
    && (forall r | Live(s, r) :: Somewhere(s, r))
    && (forall r, pl | Is(s, r, pl) :: r in s.loops)
    && (forall r, pl, pl' | Is(s, r, pl) && Is(s, r, pl') :: pl == pl')
  }

  predicate CallOk(s: State, c: Call) {
    match c
    case Stopping(toCancel, toWait) =>
      toCancel <= toWait && (forall r | r in toWait :: r in s.loops && (r in toCancel || s.loops[r].cancelled))
    case StartSpawn(r) => r in s.loops && s.loops[r].phase == Created
    case _ => true
  }

  /** A registered runner is live, uncancelled and filed under its own id; only
      the Start that created a runner can spawn it. */
  ghost predicate Filed(s: State) {
    && (forall id | id in s.runs :: Live(s, s.runs[id]) && !s.loops[s.runs[id]].cancelled && s.loops[s.runs[id]].connId == id)
    && (forall t | t in s.calls :: CallOk(s, s.calls[t]))
    && (forall t, u | t in s.calls && u in s.calls && s.calls[t].StartSpawn? && s.calls[t] == s.calls[u] :: t == u)
    && (forall r | r in s.loops && s.loops[r].phase == Created :: HasStarter(s, r))
  }

  ghost predicate HasStarter(s: State, r: Runner) {
    exists t :: t in s.calls && s.calls[t] == StartSpawn(r)
  }

  ghost predicate Inv(s: State) {
    Placed(s) && Filed(s)
  }

  lemma StartInv()
    ensures Inv(START)
  {
  }

  /** Places after a step: those in moved are new, the rest unchanged. */
  ghost predicate Moves(s: State, s': State, moved: map<Runner, Place>) {
    && (forall r, pl :: Is(s', r, pl) <==> if r in moved then pl == moved[r] else Is(s, r, pl))
    && s'.loops.Keys == s.loops.Keys + moved.Keys
    && (forall r | Live(s', r) && r !in moved :: Live(s, r))
  }

  lemma MovesPlace(s: State, s': State, moved: map<Runner, Place>)
    requires Placed(s) && Moves(s, s', moved)
    ensures Placed(s')
  {
    hide Is, Live;
    forall r | Live(s', r) ensures Somewhere(s', r) {
      if r in moved {
        assert Is(s', r, moved[r]);
      } else {
        var pl :| Is(s, r, pl);
        assert Is(s', r, pl);
      }
    }
  }

  function Holds(s: State, t: nat): set<Runner> {
    if t in s.calls then Owned(s.calls[t]) else {}
  }

  /** Nothing taken, given up or revived. */
  ghost predicate SamePlaces(s: State, s': State) {
    && s'.runs == s.runs && s'.loops.Keys == s.loops.Keys
    && (forall t :: Holds(s', t) == Holds(s, t))
    && (forall r | Live(s', r) :: Live(s, r))
  }

  lemma StillPlaced(s: State, s': State)
    requires Placed(s) && SamePlaces(s, s')
    ensures Placed(s')
  {
    hide Live;
    forall r, pl ensures Is(s', r, pl) <==> Is(s, r, pl) {
      if pl.Taken? { assert Holds(s', pl.t) == Holds(s, pl.t); }
    }
    assert Moves(s, s', map[]);
    MovesPlace(s, s', map[]);
  }

  predicate KeepsPlaces(s: State, step: Step)
    requires Enabled(s, step)
  {
    step.Begin? || step.Spawn? || step.Cancel? || step.Return? || step.Tick? || step.Exit?
    || (step.Register? && s.calls[step.t].id in s.runs)
  }

  lemma StillSame(s: State, step: Step)
    requires Filed(s) && Enabled(s, step) && KeepsPlaces(s, step)
    ensures SamePlaces(s, Apply(s, step))
  {
    var s' := Apply(s, step);
    if step.Cancel? { assert CallOk(s, s.calls[step.t]); }
    if step.Spawn? { assert CallOk(s, s.calls[step.t]); }
    assert s'.loops.Keys == s.loops.Keys;
  }

  lemma RegisterPlaced(s: State, step: Step)
    requires Placed(s) && Enabled(s, step) && step.Register? && s.calls[step.t].id !in s.runs
    ensures Placed(Apply(s, step))
  {
    var s', r, id := Apply(s, step), step.newRunner, s.calls[step.t].id;
    forall x, pl ensures Is(s', x, pl) <==> if x == r then pl == Registered(id) else Is(s, x, pl) {
      assert Is(s, x, pl) ==> x in s.loops;
    }
    MovesPlace(s, s', map[r := Registered(id)]);
  }

  lemma TakePlaced(s: State, t: nat)
    requires Placed(s) && Enabled(s, Take(t))
    ensures Placed(Apply(s, Take(t)))
  {
    var s', id := Apply(s, Take(t)), s.calls[t].id;
    if id in s.runs {
      var r := s.runs[id];
      assert Is(s, r, Registered(id));
      forall x, pl ensures Is(s', x, pl) <==> if x == r then pl == Taken(t) else Is(s, x, pl) {
        assert x == r && Is(s, r, pl) ==> pl == Registered(id);
      }
      MovesPlace(s, s', map[r := Taken(t)]);
    } else {
      assert s'.runs == s.runs;
      assert Moves(s, s', map[]);
      MovesPlace(s, s', map[]);
    }
  }

  lemma TakeAllPlaced(s: State, t: nat)
    requires Placed(s) && Enabled(s, TakeAll(t))
    ensures Placed(Apply(s, TakeAll(t)))
  {
    var s' := Apply(s, TakeAll(t));
    var moved := map r | r in s.runs.Values :: Taken(t);
    forall x, pl ensures Is(s', x, pl) <==> if x in moved then pl == moved[x] else Is(s, x, pl) {
      if x in moved {
        var id :| id in s.runs && s.runs[id] == x;
        assert Is(s, x, Registered(id));
        assert Is(s, x, pl) ==> pl == Registered(id);
      }
    }
    forall r | r in s.runs.Values ensures r in s.loops {
      var id :| id in s.runs && s.runs[id] == r;
      assert Is(s, r, Registered(id));
    }
    MovesPlace(s, s', moved);
  }

  /** A stopping call lets go of a runner only once it has exited. */
  lemma WaitPlaced(s: State, t: nat, r: Runner)
    requires Placed(s) && Enabled(s, Wait(t, r))
    ensures Placed(Apply(s, Wait(t, r)))
  {
    var s' := Apply(s, Wait(t, r));
    assert Is(s, r, Taken(t));
    forall x, pl ensures Is(s', x, pl) <==> x != r && Is(s, x, pl) {
      assert x == r && Is(s, r, pl) ==> pl == Taken(t);
    }
    forall x | Live(s', x) ensures Somewhere(s', x) {
      assert Live(s, x) && Somewhere(s, x);
      var pl :| Is(s, x, pl);
      assert Is(s', x, pl);
    }
  }

  lemma StaysFiled(s: State, step: Step)
    requires Inv(s) && Enabled(s, step)
    ensures Filed(Apply(s, step))
  {
    var s' := Apply(s, step);
    CallsStayOk(s, step);
    StartersStay(s, step);
    RunsStayFiled(s, step);
    hide Apply, CallOk, HasStarter, Live;
    forall t, u | t in s'.calls && u in s'.calls && s'.calls[t].StartSpawn? && s'.calls[t] == s'.calls[u] ensures t == u {
      StartersApart(s, step, t, u);
    }
  }

  lemma RunsStayFiled(s: State, step: Step)
    requires Inv(s) && Enabled(s, step)
    ensures var s' := Apply(s, step);
            forall id | id in s'.runs :: Live(s', s'.runs[id]) && !s'.loops[s'.runs[id]].cancelled && s'.loops[s'.runs[id]].connId == id
  {
    var s' := Apply(s, step);
    forall id | id in s'.runs
      ensures Live(s', s'.runs[id]) && !s'.loops[s'.runs[id]].cancelled && s'.loops[s'.runs[id]].connId == id
    {
      var r := s'.runs[id];
      if id in s.runs { assert Is(s, r, Registered(id)); }
      if step.Cancel? {
        assert CallOk(s, s.calls[step.t]);
        assert Is(s, step.r, Taken(step.t));
      }
    }
  }

  lemma CallsStayOk(s: State, step: Step)
    requires Inv(s) && Enabled(s, step)
    ensures var s' := Apply(s, step); forall t | t in s'.calls :: CallOk(s', s'.calls[t])
  {
    var s' := Apply(s, step);
    forall t | t in s'.calls ensures CallOk(s', s'.calls[t]) {
      if t in s.calls {
        assert CallOk(s, s.calls[t]);
        if step.Spawn? && t != step.t && s.calls[t].StartSpawn? {
          assert s.calls[t] != s.calls[step.t];
        }
      }
    }
  }

  lemma StartersApart(s: State, step: Step, t: nat, u: nat)
    requires Inv(s) && Enabled(s, step)
    requires t in Apply(s, step).calls && u in Apply(s, step).calls
    requires Apply(s, step).calls[t].StartSpawn? && Apply(s, step).calls[t] == Apply(s, step).calls[u]
    ensures t == u
  {
    if t in s.calls { assert CallOk(s, s.calls[t]); }
    if u in s.calls { assert CallOk(s, s.calls[u]); }
  }

  lemma StartersStay(s: State, step: Step)
    requires Inv(s) && Enabled(s, step)
    ensures var s' := Apply(s, step); forall r | r in s'.loops && s'.loops[r].phase == Created :: HasStarter(s', r)
  {
    hide Placed;
    var s' := Apply(s, step);
    forall r | r in s'.loops && s'.loops[r].phase == Created ensures HasStarter(s', r) {
      if step.Register? && s.calls[step.t].id !in s.runs && r == step.newRunner {
        assert s'.calls[step.t] == StartSpawn(r);
      } else {
        assert HasStarter(s, r);
        var t :| t in s.calls && s.calls[t] == StartSpawn(r);
        assert t in s'.calls && s'.calls[t] == StartSpawn(r);
      }
    }
  }

  lemma StepKeepsInv(s: State, step: Step)
    requires Inv(s) && Enabled(s, step)
    ensures Inv(Apply(s, step))
  {
    hide Placed, Filed, Apply, Is;
    StaysFiled(s, step);
    match step
    case Register(t, _) => if s.calls[t].id in s.runs { StillSame(s, step); StillPlaced(s, Apply(s, step)); } else { RegisterPlaced(s, step); }
    case Take(t) => TakePlaced(s, t);
    case TakeAll(t) => TakeAllPlaced(s, t);
    case Wait(t, r) => WaitPlaced(s, t, r);
    case _ =>
      StillSame(s, step);
      StillPlaced(s, Apply(s, step));
  }

  // ----- whole runs -----

  ghost predicate Run(ss: seq<State>, steps: seq<Step>) {
    && |ss| == |steps| + 1
    && forall i | 0 <= i < |steps| :: Enabled(ss[i], steps[i]) && ss[i + 1] == Apply(ss[i], steps[i])
  }

  lemma {:induction false} RunKeepsInv(ss: seq<State>, steps: seq<Step>, n: nat)
    requires Run(ss, steps) && Inv(ss[0]) && n < |ss|
    ensures Inv(ss[n])
  {
    hide Inv;
    if n > 0 {
      RunKeepsInv(ss, steps, n - 1);
      StepKeepsInv(ss[n - 1], steps[n - 1]);
    }
  }

  /** In every interleaving, a live loop has one owner: the registry, under its
      own connection id, or one stopping call that has not returned. */
  lemma LiveLoopsOwned(ss: seq<State>, steps: seq<Step>, n: nat, r: Runner)
    requires Run(ss, steps) && ss[0] == START && n < |ss| && Live(ss[n], r)
    ensures exists pl :: Is(ss[n], r, pl) && forall pl' | Is(ss[n], r, pl') :: pl' == pl
    ensures forall id | Is(ss[n], r, Registered(id)) :: ss[n].loops[r].connId == id
  {
    StartInv();
    RunKeepsInv(ss, steps, n);
    var s := ss[n];
    assert Somewhere(s, r);
    var pl :| Is(s, r, pl);
    assert forall pl' | Is(s, r, pl') :: pl' == pl;
  }

  /** With no stopping call in flight, the live loops are exactly the registered
      ones, one per connection id. */
  lemma LiveAreRegistered(ss: seq<State>, steps: seq<Step>, n: nat)
    requires Run(ss, steps) && ss[0] == START && n < |ss|
    requires forall t | t in ss[n].calls :: !ss[n].calls[t].Stopping?
    ensures forall r :: Live(ss[n], r) <==> r in ss[n].runs.Values
    ensures forall i, j | i in ss[n].runs && j in ss[n].runs && ss[n].runs[i] == ss[n].runs[j] :: i == j
    // Once the Starts have returned too, every registered loop is running.
    ensures (forall t | t in ss[n].calls :: ss[n].calls[t].Finished?) ==>
              forall id | id in ss[n].runs :: ss[n].runs[id] in ss[n].loops && ss[n].loops[ss[n].runs[id]].phase == Running
  {
    StartInv();
    RunKeepsInv(ss, steps, n);
    var s := ss[n];
    forall r ensures Live(s, r) <==> r in s.runs.Values {
      if Live(s, r) {
        assert Somewhere(s, r);
        var pl :| Is(s, r, pl);
        assert pl.Registered?;
      }
    }
    forall i, j | i in s.runs && j in s.runs && s.runs[i] == s.runs[j] ensures i == j {
      assert s.loops[s.runs[i]].connId == i;
    }
    if forall t | t in s.calls :: s.calls[t].Finished? {
      forall id | id in s.runs ensures s.runs[id] in s.loops && s.loops[s.runs[id]].phase == Running {
        assert Live(s, s.runs[id]);
        assert !HasStarter(s, s.runs[id]);
      }
    }
  }

  /** Taken by call t and, until it is let go, not forgotten. */
  predicate Accounted(s: State, t: nat, r: Runner) {
    t in s.calls && r in s.loops && (r in Owned(s.calls[t]) || s.loops[r].phase == Exited) && (s.calls[t].Stopping? || s.calls[t].Finished?)
  }

  lemma AccountedStep(s: State, step: Step, t: nat, r: Runner)
    requires Inv(s) && Enabled(s, step) && Accounted(s, t, r)
    ensures Accounted(Apply(s, step), t, r)
    ensures s.loops[r].phase == Exited ==> Apply(s, step).loops[r].ticks == s.loops[r].ticks
  {
    assert step.Spawn? ==> CallOk(s, s.calls[step.t]);
  }

  lemma {:induction false} AccountedThrough(ss: seq<State>, steps: seq<Step>, i: nat, j: nat, t: nat, r: Runner)
    requires Run(ss, steps) && Inv(ss[0]) && i <= j < |ss| && Accounted(ss[i], t, r)
    ensures Accounted(ss[j], t, r)
    ensures ss[i].loops[r].phase == Exited ==> ss[j].loops[r].phase == Exited && ss[j].loops[r].ticks == ss[i].loops[r].ticks
  {
    if i < j {
      AccountedThrough(ss, steps, i, j - 1, t, r);
      RunKeepsInv(ss, steps, j - 1);
      AccountedStep(ss[j - 1], steps[j - 1], t, r);
      if ss[i].loops[r].phase == Exited { ExitedStays(ss[j - 1], steps[j - 1], r); }
    }
  }

  lemma ExitedStays(s: State, step: Step, r: Runner)
    requires Inv(s) && Enabled(s, step) && r in s.loops && s.loops[r].phase == Exited
    ensures r in Apply(s, step).loops && Apply(s, step).loops[r].phase == Exited
  {
    assert step.Spawn? ==> CallOk(s, s.calls[step.t]);
  }

  /** Once the Stop or Shutdown that took a runner has returned, the runner has
      exited, and it never ticks again whatever is scheduled afterwards. */
  lemma StoppedForGood(ss: seq<State>, steps: seq<Step>, k: nat, n: nat, m: nat, r: Runner)
    requires Run(ss, steps) && ss[0] == START && k < n <= m < |ss|
    requires (steps[k].Take? && Is(ss[k], r, Registered(ss[k].calls[steps[k].t].id))) || (steps[k].TakeAll? && r in ss[k].runs.Values)
    requires steps[k].t in ss[n].calls && ss[n].calls[steps[k].t].Finished?
    ensures r in ss[n].loops && ss[n].loops[r].phase == Exited
    ensures r in ss[m].loops && ss[m].loops[r].phase == Exited && ss[m].loops[r].ticks == ss[n].loops[r].ticks
  {
    StartInv();
    RunKeepsInv(ss, steps, k);
    var t := steps[k].t;
    TakenIsAccounted(ss[k], steps[k], r);
    AccountedThrough(ss, steps, k + 1, n, t, r);
    AccountedThrough(ss, steps, n, m, t, r);
  }

  lemma TakenIsAccounted(s: State, step: Step, r: Runner)
    requires Inv(s) && Enabled(s, step)
    requires (step.Take? && Is(s, r, Registered(s.calls[step.t].id))) || (step.TakeAll? && r in s.runs.Values)
    ensures Accounted(Apply(s, step), step.t, r)
  {
  }
}
