/**
 The sequential evaluator and the theorems about whole runs. The evaluator knows
 only the plan, which roots the user has settled and which callbacks the user has
 registered; it has no loop, no handles and no order.
 */
module PromiseEval {
  import opened Wrappers
  import opened AsyncAction
  import opened PromiseMachine
  import opened PromiseInvariant
  import opened PromiseSafety

  /** Everything the user did. */
  datatype Program = Program(plan: Plan, roots: map<nat, Outcome>, registered: set<nat>)

  /** The outcome of future n, if `fuel` nested evaluations are enough to find it. */
  function Eval(p: Program, n: nat, fuel: nat): Option<Outcome>
    decreases fuel
  {
    if fuel == 0 || n >= |p.plan| then None
    else if p.plan[n].Root? then (if n in p.roots then Some(p.roots[n]) else None)
    else if n !in p.registered then None
    else
      match Eval(p, p.plan[n].source, fuel - 1)
      case None => None
      case Some(o) =>
        match Deliver(p.plan[n], o)
        case Now(q) => Some(q)
        case Later(g) => Eval(p, g, fuel - 1)
  }

  ghost predicate Evaluates(p: Program, n: nat, o: Outcome) {
    exists fuel: nat :: Eval(p, n, fuel) == Some(o)
  }

  /** What the user of a machine has done so far. */
  function UserView(plan: Plan, s: State): Program {
    Program(plan,
            map n: nat | n < |plan| && plan[n].Root? && Out(s, User(n)).Some? :: Out(s, User(n)).value,
            set n: nat | n < |plan| && User(n) in s.source)
  }

  ghost predicate Below(p: Program, p': Program) {
    && p.plan == p'.plan && p.registered <= p'.registered
    && forall n :: n in p.roots ==> n in p'.roots && p'.roots[n] == p.roots[n]
  }

  /** An answer stays with more fuel and when the user does more. */
  lemma {:induction false} EvalMonotone(p: Program, p': Program, n: nat, fuel: nat, fuel': nat)
    requires Below(p, p') && fuel <= fuel' && Eval(p, n, fuel).Some?
    ensures Eval(p', n, fuel') == Eval(p, n, fuel)
    decreases fuel
  {
    if !p.plan[n].Root? {
      var source := p.plan[n].source;
      EvalMonotone(p, p', source, fuel - 1, fuel' - 1);
      match Deliver(p.plan[n], Eval(p, source, fuel - 1).value) {
        case Now(_) =>
        case Later(g) => EvalMonotone(p, p', g, fuel - 1, fuel' - 1);
      }
    }
  }

  lemma EvalIsUnique(p: Program, n: nat, o: Outcome, o': Outcome)
    requires Evaluates(p, n, o) && Evaluates(p, n, o')
    ensures o == o'
  {
    var k: nat :| Eval(p, n, k) == Some(o);
    var k': nat :| Eval(p, n, k') == Some(o');
    if k <= k' {
      EvalMonotone(p, p, n, k, k');
    } else {
      EvalMonotone(p, p, n, k', k);
    }
  }

  // ---------- soundness: a settled future has the outcome the evaluator gives ----------

  ghost predicate Sound(plan: Plan, s: State) {
    forall n: nat, o :: n < |plan| && Out(s, User(n)) == Some(o) ==> Evaluates(UserView(plan, s), n, o)
  }

  lemma SoundAt(plan: Plan, s: State, p: Program, n: nat, o: Outcome)
    requires Sound(plan, s) && n < |plan| && Out(s, User(n)) == Some(o) && Below(UserView(plan, s), p)
    ensures Evaluates(p, n, o)
  {
    var k: nat :| Eval(UserView(plan, s), n, k) == Some(o);
    EvalMonotone(UserView(plan, s), p, n, k, k);
  }

  lemma ViewGrows(plan: Plan, s: State, s': State)
    requires Keeps(plan, s, s')
    ensures Below(UserView(plan, s), UserView(plan, s'))
  {
  }

  lemma EvalNow(p: Program, n: nat, o: Outcome, q: Outcome)
    requires n < |p.plan| && !p.plan[n].Root? && n in p.registered
    requires Evaluates(p, p.plan[n].source, o) && Deliver(p.plan[n], o) == Now(q)
    ensures Evaluates(p, n, q)
  {
    var k: nat :| Eval(p, p.plan[n].source, k) == Some(o);
    assert Eval(p, n, k + 1) == Some(q);
  }

  lemma EvalLater(p: Program, n: nat, o: Outcome, g: nat, q: Outcome)
    requires n < |p.plan| && !p.plan[n].Root? && n in p.registered
    requires Evaluates(p, p.plan[n].source, o) && Deliver(p.plan[n], o) == Later(g) && Evaluates(p, g, q)
    ensures Evaluates(p, n, q)
  {
    var k: nat :| Eval(p, p.plan[n].source, k) == Some(o);
    var m: nat :| Eval(p, g, m) == Some(q);
    var f := if k <= m then m else k;
    EvalMonotone(p, p, p.plan[n].source, k, f);
    EvalMonotone(p, p, g, m, f);
    assert Eval(p, n, f + 1) == Some(q);
  }

  lemma UserRunIsSound(plan: Plan, s: State, p: Program, n: nat, o: Outcome, q: Outcome)
    requires Sound(plan, s) && Below(UserView(plan, s), p) && Ready(plan, s, User(n), o)
    requires Deliver(plan[n], o) == Now(q)
    ensures Evaluates(p, n, q)
  {
    assert n < |plan|;
    SourceInView(plan, s, n, o);
    hide Sound, Evaluates, Ready, Deliver, UserView;
    SoundAt(plan, s, p, plan[n].source, o);
    EvalNow(p, n, o, q);
  }

  lemma SourceInView(plan: Plan, s: State, n: nat, o: Outcome)
    requires Ready(plan, s, User(n), o)
    ensures !plan[n].Root? && plan[n].source < |plan| && n in UserView(plan, s).registered
    ensures UserView(plan, s).plan == plan && Out(s, User(plan[n].source)) == Some(o)
  {
    assert Group(plan, s, n);
  }

  lemma AdoptionRunIsSound(plan: Plan, s: State, p: Program, id: Id, o: Outcome)
    requires Sound(plan, s) && Below(UserView(plan, s), p) && Ready(plan, s, id, o)
    requires !id.User? && (id.AdoptThen? <==> o.Resolved?)
    ensures Evaluates(p, id.n, o)
  {
    var n := id.n;
    assert n < |plan|;
    AdoptionInView(plan, s, id, o);
    var g := AdoptionOf(plan, s, n).value;
    var first := Out(s, User(plan[n].source)).value;
    hide Sound, Evaluates, Ready, Deliver, UserView, AdoptionOf, Out, Group;
    SoundAt(plan, s, p, plan[n].source, first);
    SoundAt(plan, s, p, g, o);
    EvalLater(p, n, first, g, o);
  }

  lemma AdoptionInView(plan: Plan, s: State, id: Id, o: Outcome)
    requires Ready(plan, s, id, o) && !id.User? && (id.AdoptThen? <==> o.Resolved?)
    ensures !plan[id.n].Root? && AdoptionOf(plan, s, id.n).Some? && Out(s, User(plan[id.n].source)).Some?
    ensures Deliver(plan[id.n], Out(s, User(plan[id.n].source)).value) == Later(AdoptionOf(plan, s, id.n).value)
    ensures id.n in UserView(plan, s).registered && UserView(plan, s).plan == plan
    ensures plan[id.n].source < |plan| && AdoptionOf(plan, s, id.n).value < |plan|
    ensures Out(s, User(AdoptionOf(plan, s, id.n).value)) == Some(o)
  {
    assert Group(plan, s, id.n);
    RanInput(plan, s, User(id.n));
    RanInput(plan, s, AdoptThen(id.n));
  }

  /** A run settles at most the user future of its own group. */
  lemma NewlySettled(plan: Plan, s: State, s': State, id: Id, o: Outcome, n: nat, q: Outcome)
    requires id.n < |plan| && Changes(s, s', NewOutcomes(plan, id, o), NewLinks(plan, id, o), Some(id))
    requires Out(s', User(n)) == Some(q) && Out(s, User(n)) != Some(q)
    ensures n == id.n
    ensures id.User? ==> Deliver(plan[n], o) == Now(q)
    ensures !id.User? ==> q == o && (id.AdoptThen? <==> o.Resolved?)
  {
    assert User(n) in NewOutcomes(plan, id, o);
    hide Changes, Out, NewLinks, Deliver;
  }

  lemma RunSoundAt(plan: Plan, s: State, s': State, id: Id, o: Outcome, n: nat, q: Outcome)
    requires Sound(plan, s) && Ready(plan, s, id, o) && Keeps(plan, s, s')
    requires Changes(s, s', NewOutcomes(plan, id, o), NewLinks(plan, id, o), Some(id))
    requires n < |plan| && Out(s', User(n)) == Some(q)
    ensures Evaluates(UserView(plan, s'), n, q)
  {
    assert id.n < |plan|;
    hide Ready, Keeps, Evaluates, UserView, Sound, Changes;
    ViewGrows(plan, s, s');
    if Out(s, User(n)) == Some(q) {
      SoundAt(plan, s, UserView(plan, s'), n, q);
    } else {
      NewlySettled(plan, s, s', id, o, n, q);
      hide Out, Deliver;
      if id.User? {
        UserRunIsSound(plan, s, UserView(plan, s'), n, o, q);
      } else {
        AdoptionRunIsSound(plan, s, UserView(plan, s'), id, o);
      }
    }
  }

  /** Every step keeps soundness: the one user future that it can settle gets its evaluated outcome. */
  lemma RunKeepsSound(plan: Plan, s: State, s': State, id: Id, o: Outcome)
    requires Sound(plan, s) && Ready(plan, s, id, o) && Keeps(plan, s, s')
    requires Changes(s, s', NewOutcomes(plan, id, o), NewLinks(plan, id, o), Some(id))
    ensures Sound(plan, s')
  {
    assert id.n < |plan|;
    hide Ready, Keeps, Evaluates, UserView, Sound, Changes, Out;
    forall n: nat, q | n < |plan| && Out(s', User(n)) == Some(q)
      ensures Evaluates(UserView(plan, s'), n, q)
    {
      RunSoundAt(plan, s, s', id, o, n, q);
    }
    SoundIntro(plan, s');
  }

  lemma SoundIntro(plan: Plan, s: State)
    requires forall n: nat, o :: n < |plan| && Out(s, User(n)) == Some(o) ==> Evaluates(UserView(plan, s), n, o)
    ensures Sound(plan, s)
  {
  }

  lemma QuietKeepsSound(plan: Plan, s: State, s': State)
    requires Sound(plan, s) && Keeps(plan, s, s')
    requires forall n: nat :: n < |plan| && !plan[n].Root? ==> Out(s', User(n)) == Out(s, User(n))
    ensures Sound(plan, s')
  {
    hide Keeps, Evaluates;
    ViewGrows(plan, s, s');
    var p := UserView(plan, s');
    forall n: nat, q | n < |plan| && Out(s', User(n)) == Some(q)
      ensures Evaluates(p, n, q)
    {
      if plan[n].Root? {
        RootEvaluates(plan, s', n, q);
      } else {
        SoundAt(plan, s, p, n, q);
      }
    }
  }

  lemma RootEvaluates(plan: Plan, s: State, n: nat, q: Outcome)
    requires n < |plan| && plan[n].Root? && Out(s, User(n)) == Some(q)
    ensures Evaluates(UserView(plan, s), n, q)
  {
    assert Eval(UserView(plan, s), n, 1) == Some(q);
  }

  // ---------- completeness: once the loop is drained, every outcome there is has arrived ----------

  /** No handle is sent and none is closing: the loop has nothing left to do. */
  ghost predicate Drained(s: State) {
    forall x :: x in s.actions ==> s.actions[x].handle != Sent && s.actions[x].handle != Closing
  }

  /** In a drained loop an action has run exactly when its source is settled. */
  lemma DrainedRan(plan: Plan, s: State, x: Id)
    requires Core(plan, s) && Drained(s) && x in s.source && Out(s, s.source[x]).Some?
    ensures Ran(s, x)
  {
    assert Phase(s.actions[x], Input(s.futures, s.source, x));
  }

  /** In a drained loop a derived future is what its source delivers, or what the adopted future is. */
  lemma DrainedGroup(plan: Plan, s: State, n: nat, o: Outcome)
    requires Inv(plan, s) && Drained(s) && n < |plan| && !plan[n].Root?
    requires User(n) in s.source && Out(s, User(plan[n].source)) == Some(o)
    ensures Out(s, User(n)) ==
      match Deliver(plan[n], o) { case Now(q) => Some(q) case Later(g) => Out(s, User(g)) }
  {
    assert Group(plan, s, n);
    DrainedRan(plan, s, User(n));
    if Deliver(plan[n], o).Later? {
      DrainedAdoption(plan, s, n);
    }
  }

  lemma DrainedAdoption(plan: Plan, s: State, n: nat)
    requires Inv(plan, s) && Drained(s) && n < |plan| && AdoptionOf(plan, s, n).Some?
    ensures Out(s, User(n)) == Out(s, User(AdoptionOf(plan, s, n).value))
  {
    assert Group(plan, s, n);
    if Out(s, User(AdoptionOf(plan, s, n).value)).Some? {
      DrainedRan(plan, s, AdoptThen(n));
      DrainedRan(plan, s, AdoptError(n));
    } else {
      RanInput(plan, s, AdoptThen(n));
    }
  }

  lemma {:induction false} Complete(plan: Plan, s: State, n: nat, fuel: nat)
    requires Inv(plan, s) && Drained(s)
    requires Eval(UserView(plan, s), n, fuel).Some?
    ensures Out(s, User(n)) == Eval(UserView(plan, s), n, fuel)
    decreases fuel
  {
    hide Inv, Drained, Deliver;
    var p := UserView(plan, s);
    if !plan[n].Root? {
      Complete(plan, s, plan[n].source, fuel - 1);
      var o := Eval(p, plan[n].source, fuel - 1).value;
      DrainedGroup(plan, s, n, o);
      match Deliver(plan[n], o) {
        case Now(_) =>
        case Later(g) => Complete(plan, s, g, fuel - 1);
      }
    }
  }
}
