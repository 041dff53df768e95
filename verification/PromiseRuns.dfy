/**
 The promise machine over whole runs: any interleaving of user calls, handle runs
 and handle closings.
 */
module PromiseRuns {
  import opened Wrappers
  import opened AsyncAction
  import opened PromiseMachine
  import opened PromiseInvariant
  import opened PromiseSafety
  import opened PromiseEval

  ghost predicate Good(plan: Plan, s: State) {
    Inv(plan, s) && Logged(s) && Sound(plan, s)
  }

  lemma StepKeepsGood(plan: Plan, s: State, step: Step)
    requires WellFormed(plan) && Good(plan, s) && Enabled(plan, s, step)
    ensures Apply(plan, s, step).Some? && Good(plan, Apply(plan, s, step).value)
    ensures Grows(s, Apply(plan, s, step).value)
  {
    hide WellFormed, Enabled, Apply, Inv, Logged, Sound, Keeps, Grows;
    StepKeepsInv(plan, s, step);
    Kept(plan, s, Apply(plan, s, step).value);
    StepKeepsSound(plan, s, step);
  }

  lemma Kept(plan: Plan, s: State, s': State)
    requires Inv(plan, s) && Logged(s) && Keeps(plan, s, s')
    ensures Inv(plan, s') && Logged(s') && Grows(s, s')
  {
    hide Inv, Logged, Grows;
  }

  lemma StepKeepsSound(plan: Plan, s: State, step: Step)
    requires WellFormed(plan) && Inv(plan, s) && Logged(s) && Sound(plan, s) && Enabled(plan, s, step)
    requires Apply(plan, s, step).Some? && Keeps(plan, s, Apply(plan, s, step).value)
    ensures Sound(plan, Apply(plan, s, step).value)
  {
    hide Sound, Logged, WellFormed, Inv, Keeps, Enabled, Apply;
    if step.Run? {
      RunStepSound(plan, s, step.id);
    } else {
      QuietStep(plan, s, step);
      QuietKeepsSound(plan, s, Apply(plan, s, step).value);
    }
  }

  lemma RunStepSound(plan: Plan, s: State, id: Id)
    requires WellFormed(plan) && Inv(plan, s) && Logged(s) && Sound(plan, s) && Enabled(plan, s, Run(id))
    requires Apply(plan, s, Run(id)).Some? && Keeps(plan, s, Apply(plan, s, Run(id)).value)
    ensures Sound(plan, Apply(plan, s, Run(id)).value)
  {
    hide Sound, Logged, Inv, Keeps, Changes, Apply;
    RunChanges(plan, s, id);
    RunKeepsSound(plan, s, Apply(plan, s, Run(id)).value, id, s.actions[id].resolver.value);
  }

  /** Apart from runs, no step settles a derived future. */
  lemma QuietStep(plan: Plan, s: State, step: Step)
    requires WellFormed(plan) && Inv(plan, s) && Enabled(plan, s, step) && !step.Run? && Apply(plan, s, step).Some?
    ensures forall m: nat :: m < |plan| && !plan[m].Root? ==> Out(Apply(plan, s, step).value, User(m)) == Out(s,
      User(m))
  {
    hide Inv, WellFormed;
    match step {
      case SettleRoot(n, o) => SettleRootQuiet(plan, s, n, o);
      case Register(n) => RegisterQuiet(plan, s, n);
      case End(id) =>
    }
  }

  lemma SettleRootQuiet(plan: Plan, s: State, n: nat, o: Outcome)
    requires Inv(plan, s) && Enabled(plan, s, SettleRoot(n, o)) && Apply(plan, s, SettleRoot(n, o)).Some?
    ensures forall m: nat :: m < |plan| && !plan[m].Root? ==>
      Out(Apply(plan, s, SettleRoot(n, o)).value, User(m)) == Out(s, User(m))
  {
    if Out(s, User(n)).None? {
      hide Groups;
      SettleChanges(plan, s, User(n), o);
      hide Core;
    }
  }

  lemma RegisterQuiet(plan: Plan, s: State, n: nat)
    requires WellFormed(plan) && Inv(plan, s) && Enabled(plan, s, Register(n)) && Apply(plan, s, Register(n)).Some?
    ensures forall m: nat :: m < |plan| ==> Out(Apply(plan, s, Register(n)).value, User(m)) == Out(s, User(m))
  {
    AttachChanges(plan, s, User(plan[n].source), User(n));
    hide Inv, Core, Attach;
  }

  lemma InitGood(plan: Plan)
    ensures Good(plan, Init(plan))
  {
    InitInv(plan);
  }

  /** A run never fails: no assertion fires and no exception escapes, in whatever order the loop works. */
  lemma {:induction false} RunFromGood(plan: Plan, s: State, steps: seq<Step>)
    requires WellFormed(plan) && Good(plan, s)
    ensures RunFrom(plan, s, steps) != Faulted
    ensures RunFrom(plan, s, steps).Reached? ==>
      Good(plan, RunFrom(plan, s, steps).state) && Grows(s, RunFrom(plan, s, steps).state)
    decreases |steps|
  {
    hide Good, WellFormed, Enabled, Apply;
    if steps != [] && Enabled(plan, s, steps[0]) {
      StepKeepsGood(plan, s, steps[0]);
      RunFromGood(plan, Apply(plan, s, steps[0]).value, steps[1..]);
    }
  }

  // ---------- the theorems ----------

  ghost predicate Reachable(plan: Plan, s: State) {
    WellFormed(plan) && exists steps :: RunFrom(plan, Init(plan), steps) == Reached(s)
  }

  lemma ReachableIsGood(plan: Plan, s: State)
    requires Reachable(plan, s)
    ensures Good(plan, s)
  {
    var steps :| RunFrom(plan, Init(plan), steps) == Reached(s);
    hide Good, WellFormed;
    InitGood(plan);
    RunFromGood(plan, Init(plan), steps);
  }

  /** No assertion fails and no exception escapes into the loop, over any run. */
  lemma NeverFaults(plan: Plan, steps: seq<Step>)
    requires WellFormed(plan)
    ensures RunFrom(plan, Init(plan), steps) != Faulted
  {
    hide Good, WellFormed;
    InitGood(plan);
    RunFromGood(plan, Init(plan), steps);
  }

  /** The drained loop has computed exactly what the sequential evaluator computes. */
  lemma DrainedIsEvaluated(plan: Plan, s: State, n: nat, o: Outcome)
    requires Reachable(plan, s) && Drained(s) && n < |plan|
    ensures Out(s, User(n)) == Some(o) <==> Evaluates(UserView(plan, s), n, o)
  {
    ReachableIsGood(plan, s);
    if Evaluates(UserView(plan, s), n, o) {
      var k: nat :| Eval(UserView(plan, s), n, k) == Some(o);
      hide Drained;
      Complete(plan, s, n, k);
    }
  }

  /** Before the loop is drained, nothing has been settled with another outcome. */
  lemma SettledIsEvaluated(plan: Plan, s: State, n: nat, o: Outcome)
    requires Reachable(plan, s) && n < |plan| && Out(s, User(n)) == Some(o)
    ensures Evaluates(UserView(plan, s), n, o)
  {
    ReachableIsGood(plan, s);
  }

  /** The order in which the loop works does not matter, only what the user did. */
  lemma ScheduleIndependence(plan: Plan, s: State, t: State, n: nat)
    requires Reachable(plan, s) && Drained(s) && Reachable(plan, t) && Drained(t)
    requires UserView(plan, s) == UserView(plan, t) && n < |plan|
    ensures Out(s, User(n)) == Out(t, User(n))
  {
    hide Reachable, Drained, UserView, Evaluates;
    if Out(s, User(n)).Some? {
      DrainedIsEvaluated(plan, s, n, Out(s, User(n)).value);
      DrainedIsEvaluated(plan, t, n, Out(s, User(n)).value);
    } else if Out(t, User(n)).Some? {
      DrainedIsEvaluated(plan, s, n, Out(t, User(n)).value);
      DrainedIsEvaluated(plan, t, n, Out(t, User(n)).value);
    }
  }

  /** The first settlement of a future is final, whatever comes after it. */
  lemma OutcomesAreFinal(plan: Plan, s: State, steps: seq<Step>, f: Id)
    requires Reachable(plan, s) && RunFrom(plan, s, steps).Reached? && Out(s, f).Some?
    ensures Out(RunFrom(plan, s, steps).state, f) == Out(s, f)
  {
    ReachableIsGood(plan, s);
    hide Good;
    RunFromGood(plan, s, steps);
  }

  /**
   The life of a handle. Between steps the handle's data, the self reference
   and the stored resolver are all present or all absent, present exactly from enqueue
   to close; the action has been enqueued at most once, with its source's outcome, then
   executed at most once, then closed at most once.
   */
  lemma HandleLife(plan: Plan, s: State, x: Id)
    requires Reachable(plan, s) && x in s.actions
    ensures var a := s.actions[x];
      && (a.data <==> a.instance) && (a.data <==> a.resolver.Some?)
      && (a.data <==> a.handle == Sent || a.handle == Closing)
      && a.instanceNum == (if a.data then 1 else 0)
      && (a.handle == Unused <==> Input(s.futures, s.source, x) == None)
      && (a.handle != Unused ==>
           About(s.log, x) <= [Enqueued(x, Input(s.futures, s.source, x).value), Executed(x), Ended(x)])
      && |About(s.log, x)| ==
           (match a.handle case Unused => 0 case Sent => 1 case Closing => 2 case Closed => 3)
  {
    ReachableIsGood(plan, s);
    hide Inv, Logged, Phase, History, Input, About;
    assert Core(plan, s) && LoggedAt(s, x) by {
      InvHasCore(plan, s);
      LoggedHere(s, x);
    }
    CorePhase(plan, s, x);
    PhaseLife(x, s.actions[x], Input(s.futures, s.source, x));
  }

  lemma InvHasCore(plan: Plan, s: State)
    requires Inv(plan, s)
    ensures Core(plan, s)
  {
    hide Core, Groups;
  }

  lemma LoggedHere(s: State, x: Id)
    requires Logged(s) && x in s.actions
    ensures LoggedAt(s, x)
  {
    hide LoggedAt;
  }

  /** What the phase of an action says about its fields and its history. */
  lemma PhaseLife(x: Id, a: Action, input: Option<Outcome>)
    requires Phase(a, input)
    ensures (a.data <==> a.instance) && (a.data <==> a.resolver.Some?)
    ensures a.data <==> a.handle == Sent || a.handle == Closing
    ensures a.instanceNum == (if a.data then 1 else 0)
    ensures a.handle == Unused <==> input == None
    ensures a.handle != Unused ==> History(x, a, input) <= [Enqueued(x, input.value), Executed(x), Ended(x)]
    ensures |History(x, a, input)| ==
      (match a.handle case Unused => 0 case Sent => 1 case Closing => 2 case Closed => 3)
  {
  }

  /**
   Settling a future runs no callback: it only enqueues the registered actions, in the
   order of their registration, each with that outcome.
   */
  lemma SettlingOnlyEnqueues(plan: Plan, s: State, f: Id, o: Outcome)
    requires Reachable(plan, s) && f in s.futures && Out(s, f) == None
    ensures SettleFuture(s, f, o).Done?
    ensures SettleFuture(s, f, o).state.log == s.log + Events(s.futures[f].actions, o)
    ensures forall x :: x in s.futures[f].actions ==>
      x in SettleFuture(s, f, o).state.actions && SettleFuture(s, f, o).state.actions[x] == Busy(o, Sent)
  {
    ReachableIsGood(plan, s);
    SettleLog(plan, s, f, o);
    SettlePending(plan, s, f, o);
    hide SettleFuture, Good;
  }

  /** `ns` is a chain of futures, each of whose callbacks returned the next. */
  ghost predicate AdoptionChain(plan: Plan, s: State, ns: seq<nat>) {
    && |ns| > 0 && (forall i :: 0 <= i < |ns| ==> ns[i] < |plan|)
    && forall i :: 0 <= i < |ns| - 1 ==> AdoptionOf(plan, s, ns[i]) == Some(ns[i + 1])
  }

  /** Adoption to any depth ends with the outcome of the innermost future. */
  lemma {:induction false} AdoptionChainOutcome(plan: Plan, s: State, ns: seq<nat>)
    requires Reachable(plan, s) && Drained(s) && AdoptionChain(plan, s, ns)
    ensures Out(s, User(ns[0])) == Out(s, User(ns[|ns| - 1]))
    decreases |ns|
  {
    if |ns| > 1 {
      var rest := ns[1..];
      assert AdoptionChain(plan, s, rest) by {
        forall i | 0 <= i < |rest| - 1
          ensures AdoptionOf(plan, s, rest[i]) == Some(rest[i + 1])
        {
          assert AdoptionOf(plan, s, ns[i + 1]) == Some(ns[i + 2]);
        }
      }
      AdoptionChainOutcome(plan, s, rest);
      assert AdoptionOf(plan, s, ns[0]) == Some(ns[1]);
      ReachableIsGood(plan, s);
      hide AdoptionOf, Drained;
      DrainedAdoption(plan, s, ns[0]);
    }
  }

  // ---------- the loop drains ----------

  function Weight(s: State, x: Id): nat {
    if x !in s.actions then 0 else
    match s.actions[x].handle case Unused => 2 case Sent => 2 case Closing => 1 case Closed => 0
  }

  /** How many loop steps the first k groups of actions can still take. */
  function Work(s: State, k: nat): nat {
    if k == 0 then 0 else
    Work(s, k - 1) + Weight(s, User(k - 1)) + Weight(s, AdoptThen(k - 1)) + Weight(s, AdoptError(k - 1))
  }

  function LoopSteps(steps: seq<Step>): nat {
    if steps == [] then 0 else (if steps[0].OfLoop() then 1 else 0) + LoopSteps(steps[1..])
  }

  lemma {:induction false} WorkDrops(s: State, s': State, k: nat, id: Option<Id>)
    requires forall x :: Weight(s', x) == Weight(s, x) - (if id == Some(x) then 1 else 0)
    ensures Work(s', k) == Work(s, k) - (if id.Some? && id.value.n < k then 1 else 0)
  {
    if k > 0 {
      WorkDrops(s, s', k - 1, id);
    }
  }

  lemma {:induction false} InitialWork(plan: Plan, k: nat)
    requires k <= |plan|
    ensures Work(Init(plan), k) == 6 * k
  {
    if k > 0 {
      InitialWork(plan, k - 1);
    }
  }

  /** A user step leaves the amount of work alone, a loop step takes exactly one off. */
  lemma StepWork(plan: Plan, s: State, step: Step)
    requires WellFormed(plan) && Good(plan, s) && Enabled(plan, s, step)
    ensures Apply(plan, s, step).Some?
    ensures Work(Apply(plan, s, step).value, |plan|) == Work(s, |plan|) - (if step.OfLoop() then 1 else 0)
  {
    hide Inv, Core, Good, Apply, WellFormed, Work, Weight, Enabled;
    GoodHasCore(plan, s);
    LoopStepInPlan(plan, s, step);
    StepKeepsGood(plan, s, step);
    var s' := Apply(plan, s, step).value;
    match step {
      case Run(id) =>
        RunWeights(plan, s, id);
        WorkDrops(s, s', |plan|, Some(id));
      case End(id) =>
        EndWeights(plan, s, id);
        WorkDrops(s, s', |plan|, Some(id));
      case SettleRoot(n, o) =>
        SettleRootWork(plan, s, n, o);
        WorkDrops(s, s', |plan|, None);
      case Register(n) =>
        RegisterWork(plan, s, n);
        WorkDrops(s, s', |plan|, None);
    }
  }

  lemma LoopStepInPlan(plan: Plan, s: State, step: Step)
    requires Enabled(plan, s, step)
    ensures step.OfLoop() ==> step.id.n < |plan|
  {
  }

  lemma GoodHasCore(plan: Plan, s: State)
    requires Good(plan, s)
    ensures Inv(plan, s) && Core(plan, s)
  {
    hide Core, Groups;
  }

  lemma RunWeights(plan: Plan, s: State, id: Id)
    requires WellFormed(plan) && Inv(plan, s) && Enabled(plan, s, Run(id)) && Apply(plan, s, Run(id)).Some?
    ensures var s' := Apply(plan, s, Run(id)).value;
      forall x :: Weight(s', x) == Weight(s, x) - (if Some(id) == Some(x) then 1 else 0)
  {
    hide Inv, Apply, WellFormed, Weight, Changes;
    RunChanges(plan, s, id);
    var o := s.actions[id].resolver.value;
    ChangesWork(s, Apply(plan, s, Run(id)).value, NewOutcomes(plan, id, o), NewLinks(plan, id, o), Some(id), id);
  }

  lemma EndWeights(plan: Plan, s: State, id: Id)
    requires Core(plan, s) && Enabled(plan, s, End(id)) && Apply(plan, s, End(id)).Some?
    ensures var s' := Apply(plan, s, End(id)).value;
      forall x :: Weight(s', x) == Weight(s, x) - (if Some(id) == Some(x) then 1 else 0)
  {
    hide Core;
    EndHandle(plan, s, id);
    assert Apply(plan, s, End(id)).value.actions == s.actions[id := SPENT];
  }

  lemma ChangesWork(s: State, s': State, outs: map<Id, Outcome>, links: map<Id, Id>, ran: Option<Id>, id: Id)
    requires Changes(s, s', outs, links, ran) && (ran == None || ran == Some(id))
    requires ran != None ==> id in s.actions && s.actions[id].handle == Sent
    ensures forall x :: Weight(s', x) == Weight(s, x) - (if ran == Some(x) then 1 else 0)
  {
    forall x
      ensures Weight(s', x) == Weight(s, x) - (if ran == Some(x) then 1 else 0)
    {
      assert Ran(s', x) == (Ran(s, x) || ran == Some(x)) && Spent(s', x) == Spent(s, x);
    }
  }

  lemma SettleRootWork(plan: Plan, s: State, n: nat, o: Outcome)
    requires Core(plan, s) && Enabled(plan, s, SettleRoot(n, o)) && Apply(plan, s, SettleRoot(n, o)).Some?
    ensures forall x :: Weight(Apply(plan, s, SettleRoot(n, o)).value, x) == Weight(s, x)
  {
    assert User(n) in s.futures;
    hide Core, SettleFuture;
    if Out(s, User(n)).None? {
      SettleChanges(plan, s, User(n), o);
      hide Changes, Weight;
      ChangesWork(s, SettleFuture(s, User(n), o).state, map[User(n) := o], map[], None, User(n));
    } else {
      SettledTwice(s, User(n), o);
    }
  }

  lemma SettledTwice(s: State, f: Id, o: Outcome)
    requires Out(s, f).Some?
    ensures SettleFuture(s, f, o) == AlreadySatisfied
  {
  }

  lemma RegisterWork(plan: Plan, s: State, n: nat)
    requires WellFormed(plan) && Core(plan, s) && Enabled(plan, s, Register(n)) && Apply(plan, s, Register(n)).Some?
    ensures forall x :: Weight(Apply(plan, s, Register(n)).value, x) == Weight(s, x)
  {
    var f := User(plan[n].source);
    hide Core, Attach, Changes, Weight;
    AllIds(plan, s);
    AttachChanges(plan, s, f, User(n));
    ChangesWork(s, Attach(s, f, User(n)).value, map[], map[User(n) := f], None, f);
  }

  lemma {:induction false} RunWork(plan: Plan, s: State, steps: seq<Step>)
    requires WellFormed(plan) && Good(plan, s) && RunFrom(plan, s, steps).Reached?
    ensures LoopSteps(steps) + Work(RunFrom(plan, s, steps).state, |plan|) == Work(s, |plan|)
    decreases |steps|
  {
    hide Good, WellFormed, Enabled, Apply, Work;
    if steps != [] {
      StepKeepsGood(plan, s, steps[0]);
      StepWork(plan, s, steps[0]);
      RunWork(plan, Apply(plan, s, steps[0]).value, steps[1..]);
    }
  }

  /** Whatever the order, the loop takes at most six steps per future, and what is left is exactly known. */
  lemma {:induction false} LoopDrains(plan: Plan, steps: seq<Step>)
    requires WellFormed(plan) && RunFrom(plan, Init(plan), steps).Reached?
    ensures LoopSteps(steps) + Work(RunFrom(plan, Init(plan), steps).state, |plan|) == 6 * |plan|
    ensures LoopSteps(steps) <= 6 * |plan|
  {
    hide Good, WellFormed, RunFrom;
    InitGood(plan);
    RunWork(plan, Init(plan), steps);
    InitialWork(plan, |plan|);
  }

  /** A loop that is not drained has a step to take. */
  lemma NotDrainedCanStep(plan: Plan, s: State)
    requires Reachable(plan, s) && !Drained(s)
    ensures exists step: Step :: step.OfLoop() && Enabled(plan, s, step)
  {
    ReachableIsGood(plan, s);
    var x :| x in s.actions && (s.actions[x].handle == Sent || s.actions[x].handle == Closing);
    var step := if s.actions[x].handle == Sent then Run(x) else End(x);
    assert step.OfLoop() && Enabled(plan, s, step);
  }
}
