/**
 What then, error and finally mean, said of the plan and of the outcomes alone, and what
 the user's calls decide: outcomes follow from the steps that the user took.
 */
module PromiseLaws {
  import opened Wrappers
  import opened AsyncAction
  import opened PromiseMachine
  import opened PromiseInvariant
  import opened PromiseSafety
  import opened PromiseEval
  import opened PromiseRuns

  /** The callback of n is registered and the future it waits for is settled. */
  ghost predicate Due(plan: Plan, s: State, n: nat) {
    && n < |plan| && !plan[n].Root? && User(n) in s.source
    && Out(s, User(plan[n].source)).Some?
  }

  /** The loop has got to n: it is drained, or n is settled already. */
  ghost predicate Arrived(s: State, n: nat) {
    Drained(s) || Out(s, User(n)).Some?
  }

  /** Nothing is settled before its source, and nothing without having been registered. */
  lemma SettledIsDue(plan: Plan, s: State, n: nat)
    requires Reachable(plan, s) && n < |plan| && !plan[n].Root? && Out(s, User(n)).Some?
    ensures Due(plan, s, n)
  {
    ReachableIsGood(plan, s);
    GroupAt(plan, s, n);
    RanInput(plan, s, User(n));
    hide Core, Groups;
  }

  /** What has arrived is what the source delivers, whether the loop is drained or not. */
  lemma ArrivedDelivers(plan: Plan, s: State, n: nat)
    requires Reachable(plan, s) && Due(plan, s, n) && Arrived(s, n)
    ensures Out(s, User(n)) ==
      match Deliver(plan[n], Out(s, User(plan[n].source)).value) {
        case Now(q) => Some(q)
        case Later(g) => Out(s, User(g))
      }
  {
    ReachableIsGood(plan, s);
    hide Core, Groups, Deliver;
    if Drained(s) {
      DrainedGroup(plan, s, n, Out(s, User(plan[n].source)).value);
    } else {
      GroupAt(plan, s, n);
    }
  }

  /** A value is handed to the callback, whose reply the new future takes; an error passes by. */
  lemma ThenFollows(plan: Plan, s: State, n: nat)
    requires Reachable(plan, s) && Due(plan, s, n) && Arrived(s, n) && plan[n].Then?
    ensures match Out(s, User(plan[n].source)).value
      case Rejected(e) => Out(s, User(n)) == Some(Rejected(e))
      case Resolved(v) =>
        match plan[n].onValue(v)
        case Return(w) => Out(s, User(n)) == Some(Resolved(w))
        case Throw(e) => Out(s, User(n)) == Some(Rejected(e))
        case ReturnFuture(g) => Out(s, User(n)) == Out(s, User(g))
  {
    hide Reachable, Out, Drained;
    ArrivedDelivers(plan, s, n);
  }

  /** A value passes by; an error is handed to the callback. */
  lemma ErrorFollows(plan: Plan, s: State, n: nat)
    requires Reachable(plan, s) && Due(plan, s, n) && Arrived(s, n) && plan[n].OnError?
    ensures match Out(s, User(plan[n].source)).value
      case Resolved(v) => Out(s, User(n)) == Some(Resolved(v))
      case Rejected(e) => Out(s, User(n)) == Some(plan[n].onError(e))
  {
    hide Reachable, Out, Drained;
    ArrivedDelivers(plan, s, n);
  }

  /** The callback is called for a value and for an error, and its reply is taken for both. */
  lemma FinallyFollows(plan: Plan, s: State, n: nat)
    requires Reachable(plan, s) && Due(plan, s, n) && Arrived(s, n) && plan[n].Finally?
    ensures match plan[n].always
      case Return(w) => Out(s, User(n)) == Some(Resolved(w))
      case Throw(e) => Out(s, User(n)) == Some(Rejected(e))
      case ReturnFuture(g) => Out(s, User(n)) == Out(s, User(g))
  {
    hide Reachable, Out, Drained;
    ArrivedDelivers(plan, s, n);
  }

  // ---------- how far an outcome travels ----------

  /** Each future of the path is registered on the one before it. */
  ghost predicate Path(plan: Plan, s: State, ns: seq<nat>) {
    && |ns| > 0 && (forall i :: 0 <= i < |ns| ==> ns[i] < |plan|)
    && forall i :: 0 < i < |ns| ==>
         !plan[ns[i]].Root? && plan[ns[i]].source == ns[i - 1] && User(ns[i]) in s.source
  }

  lemma PathFront(plan: Plan, s: State, ns: seq<nat>)
    requires Path(plan, s, ns) && |ns| > 1
    ensures Path(plan, s, ns[..|ns| - 1])
  {
  }

  /** An error arrives unchanged at every future of a path of then callbacks, however long it is. */
  lemma {:induction false} ErrorTravels(plan: Plan, s: State, ns: seq<nat>, e: Error)
    requires Reachable(plan, s) && Drained(s) && Path(plan, s, ns)
    requires forall i :: 0 < i < |ns| ==> plan[ns[i]].Then?
    requires Out(s, User(ns[0])) == Some(Rejected(e))
    ensures forall i :: 0 <= i < |ns| ==> Out(s, User(ns[i])) == Some(Rejected(e))
    decreases |ns|
  {
    hide Reachable, Drained, Out;
    if |ns| > 1 {
      var front := ns[..|ns| - 1];
      PathFront(plan, s, ns);
      ErrorTravels(plan, s, front, e);
      assert Out(s, User(front[|ns| - 2])) == Some(Rejected(e));
      ThenFollows(plan, s, ns[|ns| - 1]);
      forall i | 0 <= i < |ns|
        ensures Out(s, User(ns[i])) == Some(Rejected(e))
      {
        assert i < |ns| - 1 ==> ns[i] == front[i];
      }
    }
  }

  /** The first error callback behind such a path gets that very error. */
  lemma ErrorIsCaught(plan: Plan, s: State, ns: seq<nat>, e: Error)
    requires Reachable(plan, s) && Drained(s) && Path(plan, s, ns) && |ns| > 1
    requires (forall i :: 0 < i < |ns| - 1 ==> plan[ns[i]].Then?) && plan[ns[|ns| - 1]].OnError?
    requires Out(s, User(ns[0])) == Some(Rejected(e))
    ensures Out(s, User(ns[|ns| - 1])) == Some(plan[ns[|ns| - 1]].onError(e))
  {
    hide Reachable, Drained, Out;
    var front := ns[..|ns| - 1];
    PathFront(plan, s, ns);
    ErrorTravels(plan, s, front, e);
    assert Out(s, User(front[|ns| - 2])) == Some(Rejected(e));
    ErrorFollows(plan, s, ns[|ns| - 1]);
  }

  /** A value arrives unchanged at every future of a path of error callbacks. */
  lemma {:induction false} ValueTravels(plan: Plan, s: State, ns: seq<nat>, v: Value)
    requires Reachable(plan, s) && Drained(s) && Path(plan, s, ns)
    requires forall i :: 0 < i < |ns| ==> plan[ns[i]].OnError?
    requires Out(s, User(ns[0])) == Some(Resolved(v))
    ensures forall i :: 0 <= i < |ns| ==> Out(s, User(ns[i])) == Some(Resolved(v))
    decreases |ns|
  {
    hide Reachable, Drained, Out;
    if |ns| > 1 {
      var front := ns[..|ns| - 1];
      PathFront(plan, s, ns);
      ValueTravels(plan, s, front, v);
      assert Out(s, User(front[|ns| - 2])) == Some(Resolved(v));
      ErrorFollows(plan, s, ns[|ns| - 1]);
      forall i | 0 <= i < |ns|
        ensures Out(s, User(ns[i])) == Some(Resolved(v))
      {
        assert i < |ns| - 1 ==> ns[i] == front[i];
      }
    }
  }

  // ---------- what the user's steps decide ----------

  /** The outcome of the first step that settles a root. */
  function FirstSettlement(steps: seq<Step>, n: nat): Option<Outcome> {
    if steps == [] then None
    else if steps[0].SettleRoot? && steps[0].n == n then Some(steps[0].outcome)
    else FirstSettlement(steps[1..], n)
  }

  /** Both by one step: a root takes its first outcome from the user, and only the user registers. */
  ghost predicate UserDecides(plan: Plan, s: State, s': State, steps: seq<Step>) {
    && (forall n: nat :: n < |plan| && plan[n].Root? ==>
         Out(s', User(n)) == if Out(s, User(n)).Some? then Out(s, User(n)) else FirstSettlement(steps, n))
    && (forall n: nat :: User(n) in s'.source <==> User(n) in s.source || Register(n) in steps)
  }

  ghost predicate StepDecided(plan: Plan, s: State, s': State, step: Step) {
    && (forall n: nat :: n < |plan| && plan[n].Root? ==>
         Out(s', User(n)) ==
           if Out(s, User(n)).None? && step.SettleRoot? && step.n == n then Some(step.outcome) else Out(s, User(n)))
    && (forall n: nat :: User(n) in s'.source <==> User(n) in s.source || step == Register(n))
  }

  lemma OneStepDecides(plan: Plan, s: State, s': State, step: Step)
    requires StepDecided(plan, s, s', step)
    ensures UserDecides(plan, s, s', [step])
  {
    hide Out;
    forall n: nat
      ensures FirstSettlement([step], n) == if step.SettleRoot? && step.n == n then Some(step.outcome) else None
    {
    }
  }

  lemma SettleApplies(plan: Plan, s: State, m: nat, o: Outcome)
    requires Enabled(plan, s, SettleRoot(m, o)) && SettleFuture(s, User(m), o).Done?
    ensures Apply(plan, s, SettleRoot(m, o)) == Some(SettleFuture(s, User(m), o).state)
  {
    hide SettleFuture;
  }

  lemma SettleDecided(s: State, s': State, plan: Plan, m: nat, o: Outcome)
    requires Changes(s, s', map[User(m) := o], map[], None) && Out(s, User(m)).None?
    ensures StepDecided(plan, s, s', SettleRoot(m, o))
  {
    hide Out, Ran, Spent, Logged;
  }

  lemma SettleDecides(plan: Plan, s: State, m: nat, o: Outcome)
    requires Inv(plan, s) && Core(plan, s) && Enabled(plan, s, SettleRoot(m, o))
    requires Apply(plan, s, SettleRoot(m, o)).Some?
    ensures StepDecided(plan, s, Apply(plan, s, SettleRoot(m, o)).value, SettleRoot(m, o))
  {
    hide Inv, Core, Apply, Changes, SettleFuture, Out;
    AllIds(plan, s);
    if Out(s, User(m)).None? {
      SettleChanges(plan, s, User(m), o);
      SettleApplies(plan, s, m, o);
      hide StepDecided;
      SettleDecided(s, SettleFuture(s, User(m), o).state, plan, m, o);
    } else {
      SettleRootKeepsInv(plan, s, m, o);
    }
  }

  lemma RegisterDecided(s: State, s': State, plan: Plan, m: nat, f: Id)
    requires Changes(s, s', map[], map[User(m) := f], None)
    ensures StepDecided(plan, s, s', Register(m))
  {
    hide Out, Ran, Spent, Logged;
  }

  lemma RegisterDecides(plan: Plan, s: State, m: nat)
    requires WellFormed(plan) && Core(plan, s) && Enabled(plan, s, Register(m)) && Apply(plan, s, Register(m)).Some?
    ensures StepDecided(plan, s, Apply(plan, s, Register(m)).value, Register(m))
  {
    hide Core, Changes, Attach, StepDecided;
    AllIds(plan, s);
    var f := User(plan[m].source);
    AttachChanges(plan, s, f, User(m));
    RegisterDecided(s, Attach(s, f, User(m)).value, plan, m, f);
  }

  lemma QuietDecided(plan: Plan, s: State, s': State, id: Id)
    requires s'.source == s.source && forall x :: Same(s, s', x)
    ensures StepDecided(plan, s, s', End(id))
  {
    hide Out, Ran;
    forall n: nat
      ensures Out(s', User(n)) == Out(s, User(n))
    {
      assert Same(s, s', User(n));
    }
  }

  lemma EndDecides(plan: Plan, s: State, id: Id)
    requires Inv(plan, s) && Enabled(plan, s, End(id)) && Apply(plan, s, End(id)).Some?
    ensures StepDecided(plan, s, Apply(plan, s, End(id)).value, End(id))
  {
    hide *;
    EndApplies(plan, s, id);
    QuietDecided(plan, s, WithHandle(s, id, SPENT, Ended(id)), id);
  }

  lemma RunDecided(plan: Plan, s: State, s': State, id: Id)
    requires forall n: nat :: n < |plan| && plan[n].Root? ==> Out(s', User(n)) == Out(s, User(n))
    requires forall n: nat :: User(n) in s'.source <==> User(n) in s.source
    ensures StepDecided(plan, s, s', Run(id))
  {
    hide Out;
  }

  lemma RunDecides(plan: Plan, s: State, id: Id)
    requires WellFormed(plan) && Inv(plan, s) && Enabled(plan, s, Run(id)) && Apply(plan, s, Run(id)).Some?
    ensures StepDecided(plan, s, Apply(plan, s, Run(id)).value, Run(id))
  {
    hide WellFormed, Inv, Ready, Apply, Out, Changes, NewOutcomes, NewLinks, StepDecided;
    RunChanges(plan, s, id);
    var o, s' := s.actions[id].resolver.value, Apply(plan, s, Run(id)).value;
    forall n: nat | n < |plan| && plan[n].Root?
      ensures Out(s', User(n)) == Out(s, User(n))
    {
      RootStays(plan, s, s', id, o, n);
    }
    RunRegistersNone(plan, s, s', id, o);
    RunDecided(plan, s, s', id);
  }

  /** The library itself registers only the callbacks of an adoption. */
  lemma RunRegistersNone(plan: Plan, s: State, s': State, id: Id, o: Outcome)
    requires id.n < |plan| && Changes(s, s', NewOutcomes(plan, id, o), NewLinks(plan, id, o), Some(id))
    ensures forall n: nat :: User(n) in s'.source <==> User(n) in s.source
  {
    hide Deliver, Out, NewOutcomes;
  }

  lemma RootStays(plan: Plan, s: State, s': State, id: Id, o: Outcome, n: nat)
    requires Ready(plan, s, id, o) && n < |plan| && plan[n].Root? && id.n < |plan|
    requires Changes(s, s', NewOutcomes(plan, id, o), NewLinks(plan, id, o), Some(id))
    ensures Out(s', User(n)) == Out(s, User(n))
  {
    hide Ready, Changes;
    ReadyHasSource(plan, s, id, o);
    if User(n) in NewOutcomes(plan, id, o) {
      OwnOutcomes(plan, id, o, User(n));
    }
    Untouched(s, s', NewOutcomes(plan, id, o), NewLinks(plan, id, o), Some(id), User(n));
  }

  lemma OwnOutcomes(plan: Plan, id: Id, o: Outcome, x: Id)
    requires id.n < |plan| && x in NewOutcomes(plan, id, o)
    ensures x.n == id.n
  {
    hide Deliver;
  }

  lemma Untouched(s: State, s': State, outs: map<Id, Outcome>, links: map<Id, Id>, ran: Option<Id>, x: Id)
    requires Changes(s, s', outs, links, ran) && x !in outs
    ensures Out(s', x) == Out(s, x)
  {
    hide Out, Ran, Spent, Logged;
  }

  /** Only a derived future has an action that can run. */
  lemma ReadyHasSource(plan: Plan, s: State, id: Id, o: Outcome)
    requires Ready(plan, s, id, o)
    ensures id.n < |plan| && !plan[id.n].Root?
  {
    ReadyIsPending(plan, s, id, o);
    GroupAt(plan, s, id.n);
    RanInput(plan, s, User(id.n));
    hide Core, Groups, Out;
  }

  lemma StepDecides(plan: Plan, s: State, step: Step)
    requires WellFormed(plan) && Good(plan, s) && Enabled(plan, s, step) && Apply(plan, s, step).Some?
    ensures UserDecides(plan, s, Apply(plan, s, step).value, [step])
  {
    hide *;
    GoodHasCore(plan, s);
    OneStep(plan, s, step);
    OneStepDecides(plan, s, Apply(plan, s, step).value, step);
  }

  lemma OneStep(plan: Plan, s: State, step: Step)
    requires WellFormed(plan) && Inv(plan, s) && Core(plan, s) && Enabled(plan, s, step) && Apply(plan, s, step).Some?
    ensures StepDecided(plan, s, Apply(plan, s, step).value, step)
  {
    hide *;
    match step {
      case SettleRoot(m, o) => SettleDecides(plan, s, m, o);
      case Register(m) => RegisterDecides(plan, s, m);
      case Run(id) => RunDecides(plan, s, id);
      case End(id) => EndDecides(plan, s, id);
    }
  }

  lemma {:induction false} FirstSettlementCons(step: Step, steps: seq<Step>, n: nat)
    ensures FirstSettlement([step] + steps, n) ==
      if FirstSettlement([step], n).Some? then FirstSettlement([step], n) else FirstSettlement(steps, n)
  {
    assert ([step] + steps)[1..] == steps && [step][1..] == [];
  }

  lemma DecidesCons(plan: Plan, s: State, s1: State, s2: State, step: Step, steps: seq<Step>)
    requires UserDecides(plan, s, s1, [step]) && UserDecides(plan, s1, s2, steps)
    ensures UserDecides(plan, s, s2, [step] + steps)
  {
    hide Out, FirstSettlement;
    forall n: nat
      ensures FirstSettlement([step] + steps, n) ==
        if FirstSettlement([step], n).Some? then FirstSettlement([step], n) else FirstSettlement(steps, n)
    {
      FirstSettlementCons(step, steps, n);
    }
  }

  lemma {:induction false} StepsDecide(plan: Plan, s: State, steps: seq<Step>)
    requires WellFormed(plan) && Good(plan, s) && RunFrom(plan, s, steps).Reached?
    ensures UserDecides(plan, s, RunFrom(plan, s, steps).state, steps)
    decreases |steps|
  {
    hide WellFormed, Good, UserDecides, Enabled, Apply;
    if steps == [] {
      NothingDecided(plan, s);
    } else {
      StepKeepsGood(plan, s, steps[0]);
      StepDecides(plan, s, steps[0]);
      var s1 := Apply(plan, s, steps[0]).value;
      StepsDecide(plan, s1, steps[1..]);
      DecidesCons(plan, s, s1, RunFrom(plan, s, steps).state, steps[0], steps[1..]);
      assert [steps[0]] + steps[1..] == steps;
    }
  }

  lemma NothingDecided(plan: Plan, s: State)
    ensures UserDecides(plan, s, s, [])
  {
  }

  /** A root has the outcome that the first step settling it gave; registered is what a step registered. */
  lemma RootsAndRegistrations(plan: Plan, steps: seq<Step>, n: nat)
    requires WellFormed(plan) && RunFrom(plan, Init(plan), steps).Reached? && n < |plan|
    ensures var s := RunFrom(plan, Init(plan), steps).state;
      && (plan[n].Root? ==> Out(s, User(n)) == FirstSettlement(steps, n))
      && (User(n) in s.source <==> Register(n) in steps)
  {
    hide WellFormed, Good, RunFrom;
    InitGood(plan);
    StepsDecide(plan, Init(plan), steps);
  }

  /** Two drained loops agree on every future if the users settled the same first and registered the same. */
  lemma SameCallsSameOutcomes(plan: Plan, steps: seq<Step>, steps': seq<Step>, n: nat)
    requires WellFormed(plan) && RunFrom(plan, Init(plan), steps).Reached? && RunFrom(plan, Init(plan), steps').Reached?
    requires Drained(RunFrom(plan, Init(plan), steps).state) && Drained(RunFrom(plan, Init(plan), steps').state)
    requires forall m: nat :: FirstSettlement(steps, m) == FirstSettlement(steps', m)
    requires forall m: nat :: Register(m) in steps <==> Register(m) in steps'
    requires n < |plan|
    ensures var s, t := RunFrom(plan, Init(plan), steps).state, RunFrom(plan, Init(plan), steps').state;
      Out(s, User(n)) == Out(t, User(n))
  {
    hide WellFormed, RunFrom, Drained, Out, FirstSettlement, Init;
    var s, t := RunFrom(plan, Init(plan), steps).state, RunFrom(plan, Init(plan), steps').state;
    forall m: nat | m < |plan|
      ensures plan[m].Root? ==> Out(s, User(m)) == Out(t, User(m))
      ensures User(m) in s.source <==> User(m) in t.source
    {
      RootsAndRegistrations(plan, steps, m);
      RootsAndRegistrations(plan, steps', m);
    }
    assert Reachable(plan, s) && Reachable(plan, t);
    assert UserView(plan, s) == UserView(plan, t);
    hide UserView, Reachable;
    ScheduleIndependence(plan, s, t, n);
  }

  // ---------- the order of registration ----------

  /** Every future keeps its actions, in their order; new ones come behind them. */
  ghost predicate Appends(s: State, s': State) {
    s.futures.Keys <= s'.futures.Keys && forall f :: f in s.futures ==> s.futures[f].actions <= s'.futures[f].actions
  }

  lemma AppendsOn(s: State, s1: State, s2: State)
    requires Appends(s, s1) && Appends(s1, s2)
    ensures Appends(s, s2)
  {
    forall f | f in s.futures
      ensures s.futures[f].actions <= s2.futures[f].actions
    {
      assert s.futures[f].actions <= s1.futures[f].actions <= s2.futures[f].actions;
    }
  }

  lemma {:induction false} FanOutAppends(s: State, ids: seq<Id>, o: Outcome)
    requires FanOut(s, ids, o).Some?
    ensures FanOut(s, ids, o).value.futures == s.futures
    decreases |ids|
  {
    if ids != [] {
      FanOutAppends(SettleAction(s, ids[0], o).value, ids[1..], o);
    }
  }

  lemma SettleAppends(s: State, f: Id, o: Outcome)
    requires SettleFuture(s, f, o).Done?
    ensures Appends(s, SettleFuture(s, f, o).state)
  {
    var fut := s.futures[f];
    FanOutAppends(s.(futures := s.futures[f := fut.(resolver := Some(o))]), fut.actions, o);
  }

  lemma AttachAppends(s: State, f: Id, id: Id)
    requires Attach(s, f, id).Some?
    ensures f in s.futures && Appends(s, Attach(s, f, id).value)
    ensures Attach(s, f, id).value.futures[f].actions == s.futures[f].actions + [id]
  {
  }

  lemma OrRejectAppends(s: State, f: Id, o: Outcome)
    ensures SettleOrReject(s, f, o).Some? ==> Appends(s, SettleOrReject(s, f, o).value)
    ensures SettleOrEscape(s, f, o).Some? ==> Appends(s, SettleOrEscape(s, f, o).value)
  {
    hide SettleFuture, Appends;
    if SettleFuture(s, f, o).Done? {
      SettleAppends(s, f, o);
    } else if SettleFuture(s, f, Rejected(PromiseAlreadySatisfied)).Done? {
      SettleAppends(s, f, Rejected(PromiseAlreadySatisfied));
    }
  }

  lemma ForwardAppends(s: State, id: Id, o: Outcome)
    requires Forward(s, id, o).Some?
    ensures Appends(s, Forward(s, id, o).value)
  {
    hide SettleFuture, SettleOrReject, SettleOrEscape, Appends;
    match SettleFuture(s, User(id.n), o) {
      case Done(s1) =>
        SettleAppends(s, User(id.n), o);
        OrRejectAppends(s1, id, Resolved(VOID));
        AppendsOn(s, s1, Forward(s, id, o).value);
      case AlreadySatisfied =>
        OrRejectAppends(s, id, Rejected(PromiseAlreadySatisfied));
      case Fault =>
    }
  }

  lemma AnswerAppends(s: State, n: nat, r: Reply)
    requires Answer(s, n, r).Some?
    ensures Appends(s, Answer(s, n, r).value)
  {
    hide SettleOrReject, SettleOrEscape, Attach, Appends;
    match r {
      case Return(v) => OrRejectAppends(s, User(n), Resolved(v));
      case Throw(e) => OrRejectAppends(s, User(n), Rejected(e));
      case ReturnFuture(g) =>
        var s1 := Attach(s, User(g), AdoptThen(n)).value;
        AttachAppends(s, User(g), AdoptThen(n));
        AttachAppends(s1, AdoptThen(n), AdoptError(n));
        AppendsOn(s, s1, Answer(s, n, r).value);
    }
  }

  lemma ExecuteAppends(plan: Plan, s: State, id: Id, o: Outcome)
    requires id.n < |plan| && Execute(plan, s, id, o).Some?
    ensures Appends(s, Execute(plan, s, id, o).value)
  {
    hide SettleOrReject, SettleOrEscape, Answer, Forward, Appends;
    match id {
      case User(n) =>
        match plan[n] {
          case Root =>
          case Then(_, f) =>
            if o.Resolved? {
              AnswerAppends(s, n, f(o.value));
            } else {
              OrRejectAppends(s, id, o);
            }
          case OnError(_, g) =>
            OrRejectAppends(s, id, if o.Resolved? then o else g(o.error));
          case Finally(_, r) => AnswerAppends(s, n, r);
        }
      case AdoptThen(n) =>
        if o.Resolved? {
          ForwardAppends(s, id, o);
        } else {
          OrRejectAppends(s, id, o);
        }
      case AdoptError(n) =>
        if o.Resolved? {
          OrRejectAppends(s, id, o);
        } else {
          ForwardAppends(s, id, o);
        }
    }
  }

  lemma SameFutures(s: State, s': State)
    requires s'.futures == s.futures
    ensures Appends(s, s')
  {
  }

  lemma RunAppends(plan: Plan, s: State, id: Id)
    requires Enabled(plan, s, Run(id)) && Apply(plan, s, Run(id)).Some?
    ensures Appends(s, Apply(plan, s, Run(id)).value)
  {
    hide Execute, Appends;
    var s1 := Execute(plan, s, id, s.actions[id].resolver.value).value;
    ExecuteAppends(plan, s, id, s.actions[id].resolver.value);
    SameFutures(s1, Apply(plan, s, Run(id)).value);
    AppendsOn(s, s1, Apply(plan, s, Run(id)).value);
  }

  lemma StepAppends(plan: Plan, s: State, step: Step)
    requires Enabled(plan, s, step) && Apply(plan, s, step).Some?
    ensures Appends(s, Apply(plan, s, step).value)
  {
    hide SettleFuture, Attach, Execute, Appends;
    match step {
      case SettleRoot(n, o) =>
        if SettleFuture(s, User(n), o).Done? {
          SettleAppends(s, User(n), o);
        } else {
          SameFutures(s, s);
        }
      case Register(n) => AttachAppends(s, User(plan[n].source), User(n));
      case Run(id) => RunAppends(plan, s, id);
      case End(id) => SameFutures(s, Apply(plan, s, step).value);
    }
  }

  /** Over any run the actions of a future stay in the order in which they were registered. */
  lemma {:induction false} RegistrationsStayInOrder(plan: Plan, s: State, steps: seq<Step>)
    requires RunFrom(plan, s, steps).Reached?
    ensures Appends(s, RunFrom(plan, s, steps).state)
    decreases |steps|
  {
    hide Enabled, Apply, Appends;
    if steps == [] {
      SameFutures(s, s);
    } else {
      var s1 := Apply(plan, s, steps[0]).value;
      StepAppends(plan, s, steps[0]);
      RegistrationsStayInOrder(plan, s1, steps[1..]);
      AppendsOn(s, s1, RunFrom(plan, s, steps).state);
    }
  }

  /** A callback registered before another on the same future stands before it ever after. */
  lemma RegisteredBehind(plan: Plan, s: State, n: nat, steps: seq<Step>)
    requires Enabled(plan, s, Register(n)) && Apply(plan, s, Register(n)).Some?
    requires RunFrom(plan, Apply(plan, s, Register(n)).value, steps).Reached?
    ensures var f, t := User(plan[n].source), RunFrom(plan, Apply(plan, s, Register(n)).value, steps).state;
      f in s.futures && f in t.futures && s.futures[f].actions + [User(n)] <= t.futures[f].actions
  {
    hide RunFrom, Attach;
    AttachAppends(s, User(plan[n].source), User(n));
    RegistrationsStayInOrder(plan, Apply(plan, s, Register(n)).value, steps);
  }
}
