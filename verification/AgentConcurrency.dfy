/**
 The two semaphores and the registry under any interleaving of runs that are not cancelled.  A run
 waits for a permit of its kind, holds it while it is registered, deregisters and gives it back.
 Synapses may delegate to operators and wait for them; operators have no delegation tool.  Runs are
 numbered in the order they start.
 */
module AgentConcurrency {
  import opened AgentSignals

  datatype Phase = Queued | Admitted | Active | Leaving | Finished
  {
    predicate Holds() { this != Queued && this != Finished }

    function Left(): nat {
      match this case Queued => 4 case Admitted => 3 case Active => 2 case Leaving => 1 case Finished => 0
    }
  }

  /** `delegates` are the operators this run has started. */
  datatype Run = Run(kind: Kind, phase: Phase, delegates: set<nat>)

  datatype Limits = Limits(operators: nat, synapses: nat)
  {
    function Of(kind: Kind): nat { if kind == Operator then operators else synapses }
  }

  datatype State = State(free: Limits, runs: seq<Run>, registered: set<nat>)

  datatype Step =
    | Spawn(kind: Kind)       // a tool call of the interface agent
    | Delegate(id: nat)       // a tool call of an active synapse
    | Acquire(id: nat)
    | NoNode(id: nat)         // an operator's node is not in the registry
    | Register(id: nat)
    | Deregister(id: nat)     // the run proper has returned; its tool calls have, too
    | Release(id: nat)

  function Init(limits: Limits): State { State(limits, [], {}) }

  predicate Enabled(s: State, step: Step) {
    match step
    case Spawn(_) => true
    case Delegate(id) => At(s, id, Active) && s.runs[id].kind == Synapse
    case Acquire(id) => At(s, id, Queued) && s.free.Of(s.runs[id].kind) > 0
    case NoNode(id) => At(s, id, Admitted) && s.runs[id].kind == Operator
    case Register(id) => At(s, id, Admitted)
    case Deregister(id) => At(s, id, Active) && forall d | d in s.runs[id].delegates :: At(s, d, Finished)
    case Release(id) => At(s, id, Leaving)
  }

  predicate At(s: State, id: nat, phase: Phase) { id < |s.runs| && s.runs[id].phase == phase }

  function Take(free: Limits, kind: Kind): Limits
    requires free.Of(kind) > 0
  {
    if kind == Operator then free.(operators := free.operators - 1) else free.(synapses := free.synapses - 1)
  }

  function Give(free: Limits, kind: Kind): Limits {
    if kind == Operator then free.(operators := free.operators + 1) else free.(synapses := free.synapses + 1)
  }

  function Move(s: State, id: nat, phase: Phase): State
    requires id < |s.runs|
  {
    s.(runs := s.runs[id := s.runs[id].(phase := phase)])
  }

  function Apply(s: State, step: Step): State
    requires Enabled(s, step)
  {
    match step
    case Spawn(kind) => s.(runs := s.runs + [Run(kind, Queued, {})])
    case Delegate(id) =>
      var run := s.runs[id];
      s.(runs := s.runs[id := run.(delegates := run.delegates + {|s.runs|})] + [Run(Operator, Queued, {})])
    case Acquire(id) => Move(s, id, Admitted).(free := Take(s.free, s.runs[id].kind))
    case NoNode(id) => Move(s, id, Finished).(free := Give(s.free, s.runs[id].kind))
    case Register(id) => Move(s, id, Active).(registered := s.registered + {id})
    case Deregister(id) => Move(s, id, Leaving).(registered := s.registered - {id})
    case Release(id) => Move(s, id, Finished).(free := Give(s.free, s.runs[id].kind))
  }

  ghost predicate IsRun(s: State, steps: seq<Step>)
    decreases |steps|
  {
    steps == [] || (Enabled(s, steps[0]) && IsRun(Apply(s, steps[0]), steps[1..]))
  }

  ghost function After(s: State, steps: seq<Step>): State
    requires IsRun(s, steps)
    decreases |steps|
  {
    if steps == [] then s else After(Apply(s, steps[0]), steps[1..])
  }

  ghost predicate Reachable(limits: Limits, s: State) {
    exists steps :: IsRun(Init(limits), steps) && After(Init(limits), steps) == s
  }

  /** The semaphores, the runs and the registry, updated in place. */
  class Pool {
    var operatorPermits: nat
    var synapsePermits: nat
    var runs: seq<Run>
    var registered: set<nat>

    function View(): State
      reads this
    {
      State(Limits(operatorPermits, synapsePermits), runs, registered)
    }

    constructor (limits: Limits)
      ensures View() == Init(limits)
    {
      operatorPermits, synapsePermits, runs, registered := limits.operators, limits.synapses, [], {};
    }

    method Spawn(kind: Kind)
      modifies this
      ensures View() == Apply(old(View()), Step.Spawn(kind))
    {
      runs := runs + [Run(kind, Queued, {})];
    }

    method Delegate(id: nat)
      requires Enabled(View(), Step.Delegate(id))
      modifies this
      ensures View() == Apply(old(View()), Step.Delegate(id))
    {
      var child := |runs|;
      runs := runs[id := runs[id].(delegates := runs[id].delegates + {child})];
      runs := runs + [Run(Operator, Queued, {})];
    }

    method Acquire(id: nat)
      requires Enabled(View(), Step.Acquire(id))
      modifies this
      ensures View() == Apply(old(View()), Step.Acquire(id))
    {
      if runs[id].kind == Operator {
        operatorPermits := operatorPermits - 1;
      } else {
        synapsePermits := synapsePermits - 1;
      }
      runs := runs[id := runs[id].(phase := Admitted)];
    }

    method NoNode(id: nat)
      requires Enabled(View(), Step.NoNode(id))
      modifies this
      ensures View() == Apply(old(View()), Step.NoNode(id))
    {
      ReleasePermit(runs[id].kind);
      runs := runs[id := runs[id].(phase := Finished)];
    }

    method Register(id: nat)
      requires Enabled(View(), Step.Register(id))
      modifies this
      ensures View() == Apply(old(View()), Step.Register(id))
    {
      registered := registered + {id};
      runs := runs[id := runs[id].(phase := Active)];
    }

    method Deregister(id: nat)
      requires Enabled(View(), Step.Deregister(id))
      modifies this
      ensures View() == Apply(old(View()), Step.Deregister(id))
    {
      registered := registered - {id};
      runs := runs[id := runs[id].(phase := Leaving)];
    }

    method Release(id: nat)
      requires Enabled(View(), Step.Release(id))
      modifies this
      ensures View() == Apply(old(View()), Step.Release(id))
    {
      ReleasePermit(runs[id].kind);
      runs := runs[id := runs[id].(phase := Finished)];
    }

    /** Dropping a permit. */
    method ReleasePermit(kind: Kind)
      modifies this`operatorPermits, this`synapsePermits
      ensures View().free == Give(old(View().free), kind)
    {
      if kind == Operator {
        operatorPermits := operatorPermits + 1;
      } else {
        synapsePermits := synapsePermits + 1;
      }
    }
  }

  // --- What every interleaving keeps ---

  ghost function Holders(runs: seq<Run>, kind: Kind): set<nat> {
    set id | 0 <= id < |runs| && runs[id].kind == kind && runs[id].phase.Holds()
  }

  ghost function Registered(s: State, kind: Kind): set<nat> {
    set id | id in s.registered && id < |s.runs| && s.runs[id].kind == kind
  }

  ghost predicate Good(limits: Limits, s: State) {
    && (forall kind :: s.free.Of(kind) + |Holders(s.runs, kind)| == limits.Of(kind))
    && (forall id: nat :: id in s.registered <==> At(s, id, Active))
    && (forall id: nat | id < |s.runs| :: DelegatesGood(s.runs, id))
  }

  /** Only synapses delegate, and only to operators. */
  ghost predicate DelegatesGood(runs: seq<Run>, id: nat)
    requires id < |runs|
  {
    forall d | d in runs[id].delegates :: runs[id].kind == Synapse && d < |runs| && runs[d].kind == Operator
  }

  lemma HoldersMoved(runs: seq<Run>, id: nat, run: Run, kind: Kind)
    requires id < |runs| && run.kind == runs[id].kind
    ensures Holders(runs[id := run], kind)
         == if run.kind == kind && run.phase.Holds() then Holders(runs, kind) + {id} else Holders(runs, kind) - {id}
  {
  }

  lemma HoldersGrown(runs: seq<Run>, run: Run, kind: Kind)
    requires !run.phase.Holds()
    ensures Holders(runs + [run], kind) == Holders(runs, kind)
  {
  }

  /** The step moves one run on by itself, without new work. */
  predicate IsMove(step: Step) { !step.Spawn? && !step.Delegate? }

  lemma MoveBalances(limits: Limits, s: State, step: Step, kind: Kind)
    requires IsMove(step) && Enabled(s, step)
    requires s.free.Of(kind) + |Holders(s.runs, kind)| == limits.Of(kind)
    ensures Apply(s, step).free.Of(kind) + |Holders(Apply(s, step).runs, kind)| == limits.Of(kind)
  {
    var id, s' := step.id, Apply(s, step);
    HolderCount(s.runs, id, s'.runs[id], kind);
  }

  /** The holders change by the moved run alone. */
  lemma HolderCount(runs: seq<Run>, id: nat, run: Run, kind: Kind)
    requires id < |runs| && run.kind == runs[id].kind
    ensures |Holders(runs[id := run], kind)| + (if run.kind == kind && runs[id].phase.Holds() then 1 else 0)
         == |Holders(runs, kind)| + (if run.kind == kind && run.phase.Holds() then 1 else 0)
  {
    var before, after := Holders(runs, kind), Holders(runs[id := run], kind);
    HoldersMoved(runs, id, run, kind);
    assert id in before <==> run.kind == kind && runs[id].phase.Holds();
    assert before - {id} == after - {id};
    assert |before - {id}| == |before| - if id in before then 1 else 0;
    assert |after - {id}| == |after| - if id in after then 1 else 0;
  }

  lemma GrowthBalances(limits: Limits, s: State, step: Step, kind: Kind)
    requires !IsMove(step) && Enabled(s, step)
    requires s.free.Of(kind) + |Holders(s.runs, kind)| == limits.Of(kind)
    ensures Apply(s, step).free.Of(kind) + |Holders(Apply(s, step).runs, kind)| == limits.Of(kind)
  {
    match step
    case Spawn(k) => HoldersGrown(s.runs, Run(k, Queued, {}), kind);
    case Delegate(id) =>
      var run := s.runs[id].(delegates := s.runs[id].delegates + {|s.runs|});
      HoldersMoved(s.runs, id, run, kind);
      HoldersGrown(s.runs[id := run], Run(Operator, Queued, {}), kind);
      assert Holders(s.runs[id := run], kind) == Holders(s.runs, kind);
  }

  lemma StepKeepsGood(limits: Limits, s: State, step: Step)
    requires Good(limits, s) && Enabled(s, step)
    ensures Good(limits, Apply(s, step))
  {
    var s' := Apply(s, step);
    forall kind
      ensures s'.free.Of(kind) + |Holders(s'.runs, kind)| == limits.Of(kind)
    {
      if IsMove(step) { MoveBalances(limits, s, step, kind); } else { GrowthBalances(limits, s, step, kind); }
    }
    forall id: nat | id < |s'.runs|
      ensures DelegatesGood(s'.runs, id)
    {
      if id < |s.runs| { assert DelegatesGood(s.runs, id); }
    }
    forall id: nat
      ensures id in s'.registered <==> At(s', id, Active)
    {
      assert id in s.registered <==> At(s, id, Active);
    }
  }

  lemma {:induction false} RunKeepsGood(limits: Limits, s: State, steps: seq<Step>)
    requires Good(limits, s) && IsRun(s, steps)
    ensures Good(limits, After(s, steps))
    decreases |steps|
  {
    if steps != [] {
      StepKeepsGood(limits, s, steps[0]);
      RunKeepsGood(limits, Apply(s, steps[0]), steps[1..]);
    }
  }

  lemma ReachableIsGood(limits: Limits, s: State)
    requires Reachable(limits, s)
    ensures Good(limits, s)
  {
    var steps :| IsRun(Init(limits), steps) && After(Init(limits), steps) == s;
    assert forall kind :: Holders([], kind) == {};
    RunKeepsGood(limits, Init(limits), steps);
  }

  /** Never more registered operators or synapses than configured; a run is registered exactly while it
      is active. */
  lemma LimitsHold(limits: Limits, s: State)
    requires Reachable(limits, s)
    ensures |Registered(s, Operator)| <= limits.operators && |Registered(s, Synapse)| <= limits.synapses
    ensures forall id: nat :: id in s.registered <==> id < |s.runs| && s.runs[id].phase == Active
  {
    ReachableIsGood(limits, s);
    KindWithinLimit(limits, s, Operator);
    KindWithinLimit(limits, s, Synapse);
    forall id: nat
      ensures id in s.registered <==> id < |s.runs| && s.runs[id].phase == Active
    {
      assert id in s.registered <==> At(s, id, Active);
    }
  }

  lemma KindWithinLimit(limits: Limits, s: State, kind: Kind)
    requires Good(limits, s)
    ensures |Registered(s, kind)| <= limits.Of(kind)
  {
    assert forall id | id in Registered(s, kind) :: At(s, id, Active);
    SubsetSize(Registered(s, kind), Holders(s.runs, kind));
  }

  lemma {:induction false} SubsetSize<T>(a: set<T>, b: set<T>)
    requires a <= b
    ensures |a| <= |b|
  {
    assert b == a + (b - a);
  }

  // --- A synapse outlasts the operators it started ---

  /** Run `d` is an operator among the delegates of synapse `id`, and has finished if that is leaving. */
  ghost predicate Outlasts(s: State, id: nat, d: nat) {
    && id < |s.runs| && d < |s.runs|
    && s.runs[id].kind == Synapse && s.runs[d].kind == Operator
    && d in s.runs[id].delegates
    && (s.runs[id].phase == Leaving || s.runs[id].phase == Finished ==> s.runs[d].phase == Finished)
    && (s.runs[id].phase == Active || s.runs[id].phase == Leaving || s.runs[id].phase == Finished)
  }

  lemma StepKeepsOutlasting(s: State, step: Step, id: nat, d: nat)
    requires Enabled(s, step) && Outlasts(s, id, d)
    ensures Outlasts(Apply(s, step), id, d)
  {
  }

  lemma {:induction false} RunKeepsOutlasting(s: State, steps: seq<Step>, id: nat, d: nat)
    requires IsRun(s, steps) && Outlasts(s, id, d)
    ensures Outlasts(After(s, steps), id, d)
    decreases |steps|
  {
    if steps != [] {
      StepKeepsOutlasting(s, steps[0], id, d);
      RunKeepsOutlasting(Apply(s, steps[0]), steps[1..], id, d);
    }
  }

  /** Only a registered synapse delegates.  The run it starts is an operator, and at every later point
      the synapse has left the registry or returned its permit only if that operator has finished. */
  lemma DelegatesFinishFirst(limits: Limits, s: State, id: nat, steps: seq<Step>)
    requires Reachable(limits, s) && Enabled(s, Delegate(id)) && IsRun(Apply(s, Delegate(id)), steps)
    ensures id in s.registered && s.runs[id].kind == Synapse
    ensures var later, d := After(Apply(s, Delegate(id)), steps), |s.runs|;
            && id < |later.runs| && d < |later.runs| && later.runs[d].kind == Operator
            && (later.runs[id].phase == Leaving || later.runs[id].phase == Finished ==>
                  later.runs[d].phase == Finished)
  {
    ReachableIsGood(limits, s);
    assert id in s.registered <==> At(s, id, Active);
    RunKeepsOutlasting(Apply(s, Delegate(id)), steps, id, |s.runs|);
  }

  // --- No deadlock ---

  ghost predicate Unfinished(s: State) {
    exists id: nat :: id < |s.runs| && s.runs[id].phase != Finished
  }

  ghost predicate Deadlocked(s: State) {
    Unfinished(s) && forall step | IsMove(step) :: !Enabled(s, step)
  }

  ghost predicate Moves(s: State, step: Step) { IsMove(step) && Enabled(s, step) }

  /** An unfinished operator can move, or one that holds a permit can. */
  lemma OperatorMoves(limits: Limits, s: State, id: nat) returns (step: Step)
    requires Good(limits, s) && limits.operators > 0
    requires id < |s.runs| && s.runs[id].kind == Operator && s.runs[id].phase != Finished
    ensures Moves(s, step)
  {
    var holder := id;
    if s.runs[id].phase == Queued {
      assert s.free.Of(Operator) + |Holders(s.runs, Operator)| == limits.Of(Operator);
      if s.free.Of(Operator) > 0 { return Acquire(id); }
      holder :| holder in Holders(s.runs, Operator);
    }
    assert DelegatesGood(s.runs, holder);
    var phase := s.runs[holder].phase;
    step := if phase == Admitted then Register(holder)
            else if phase == Leaving then Release(holder) else Deregister(holder);
  }

  lemma SomeRunMoves(limits: Limits, s: State, id: nat) returns (step: Step)
    requires Good(limits, s) && limits.operators > 0 && limits.synapses > 0
    requires id < |s.runs| && s.runs[id].phase != Finished
    ensures Moves(s, step)
  {
    if s.runs[id].kind == Operator {
      step := OperatorMoves(limits, s, id);
      return;
    }
    var holder := id;
    if s.runs[id].phase == Queued {
      assert s.free.Of(Synapse) + |Holders(s.runs, Synapse)| == limits.Of(Synapse);
      if s.free.Of(Synapse) > 0 { return Acquire(id); }
      holder :| holder in Holders(s.runs, Synapse);
    }
    var phase := s.runs[holder].phase;
    assert DelegatesGood(s.runs, holder);
    if phase == Admitted {
      step := Register(holder);
    } else if phase == Leaving {
      step := Release(holder);
    } else if d :| d in s.runs[holder].delegates && !At(s, d, Finished) {
      step := OperatorMoves(limits, s, d);
    } else {
      step := Deregister(holder);
    }
  }

  lemma {:induction false} OneStep(s: State, step: Step)
    requires Enabled(s, step)
    ensures IsRun(s, [step]) && After(s, [step]) == Apply(s, step)
  {
    assert [step][1..] == [];
  }

  /** No interleaving deadlocks exactly when both limits are at least 1. */
  lemma DeadlockFreedom(limits: Limits)
    ensures (forall s | Reachable(limits, s) :: !Deadlocked(s)) <==> limits.operators > 0 && limits.synapses > 0
  {
    if limits.operators > 0 && limits.synapses > 0 {
      forall s | Reachable(limits, s)
        ensures !Deadlocked(s)
      {
        ReachableIsGood(limits, s);
        if id: nat :| id < |s.runs| && s.runs[id].phase != Finished {
          var step := SomeRunMoves(limits, s, id);
        }
      }
    } else {
      var kind := if limits.operators == 0 then Operator else Synapse;
      var s := Apply(Init(limits), Spawn(kind));
      OneStep(Init(limits), Spawn(kind));
      assert Reachable(limits, s);
      assert s.runs == [Run(kind, Queued, {})];
      assert Unfinished(s) by { assert s.runs[0].phase != Finished; }
      assert Deadlocked(s);
    }
  }

  // --- Without new work every run finishes ---

  ghost function LeftOver(runs: seq<Run>): nat {
    if runs == [] then 0 else LeftOver(runs[..|runs| - 1]) + runs[|runs| - 1].phase.Left()
  }

  lemma {:induction false} LeftOverMoved(runs: seq<Run>, id: nat, run: Run)
    requires id < |runs|
    ensures LeftOver(runs[id := run]) + runs[id].phase.Left() == LeftOver(runs) + run.phase.Left()
  {
    var last := |runs| - 1;
    if id < last {
      LeftOverMoved(runs[..last], id, run);
      assert runs[id := run][..last] == runs[..last][id := run];
    } else {
      assert runs[id := run][..last] == runs[..last];
    }
  }

  lemma MovesUseUp(s: State, step: Step)
    requires Moves(s, step)
    ensures LeftOver(Apply(s, step).runs) < LeftOver(s.runs)
  {
    var id := step.id;
    LeftOverMoved(s.runs, id, Apply(s, step).runs[id]);
  }

  /** With both limits at least 1, every schedule of the runs' own steps is at most `LeftOver` long,
      and where it can go no further all runs have finished. */
  lemma {:induction false} RunsFinish(limits: Limits, s: State, steps: seq<Step>)
    requires Good(limits, s) && limits.operators > 0 && limits.synapses > 0
    requires IsRun(s, steps) && forall step | step in steps :: IsMove(step)
    ensures |steps| + LeftOver(After(s, steps).runs) <= LeftOver(s.runs)
    ensures !Unfinished(After(s, steps)) || exists step :: Moves(After(s, steps), step)
    decreases |steps|
  {
    if steps == [] {
      if id: nat :| id < |s.runs| && s.runs[id].phase != Finished {
        var step := SomeRunMoves(limits, s, id);
      }
    } else {
      assert steps[0] in steps;
      MovesUseUp(s, steps[0]);
      StepKeepsGood(limits, s, steps[0]);
      RunsFinish(limits, Apply(s, steps[0]), steps[1..]);
    }
  }
}
