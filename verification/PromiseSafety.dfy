/**
 The invariant that ties futures to actions, and its preservation by every step:
 no assertion fires, no exception escapes into the loop, and a derived future is
 settled exactly by its own action or by the future that its callback returned.
 */
module PromiseSafety {
  import opened Wrappers
  import opened AsyncAction
  import opened PromiseMachine
  import opened PromiseInvariant

  /** What a settled source means for a derived future: an outcome, or another future's outcome. */
  datatype Delivery = Now(outcome: Outcome) | Later(future: nat)

  function Delivered(r: Reply): Delivery {
    match r
    case Return(v) => Now(Resolved(v))
    case Throw(e) => Now(Rejected(e))
    case ReturnFuture(g) => Later(g)
  }

  /** Values flow through then, errors pass to the first error handler, finally sees both. */
  function Deliver(link: Link, o: Outcome): Delivery {
    match link
    case Root => Now(o)
    case Then(_, f) => if o.Resolved? then Delivered(f(o.value)) else Now(o)
    case OnError(_, g) => if o.Resolved? then Now(o) else Now(g(o.error))
    case Finally(_, r) => Delivered(r)
  }

  /** The future that the callback of User(n) has returned, if it ran and returned one. */
  function AdoptionOf(plan: Plan, s: State, n: nat): Option<nat>
    requires n < |plan|
  {
    if plan[n].Root? || !Ran(s, User(n)) || Out(s, User(plan[n].source)).None? then None else
    match Deliver(plan[n], Out(s, User(plan[n].source)).value)
    case Now(_) => None
    case Later(g) => Some(g)
  }

  /** The outcome that a derived future must have, given which actions have run. */
  function Want(plan: Plan, s: State, n: nat): Option<Outcome>
    requires n < |plan| && !plan[n].Root?
  {
    if !Ran(s, User(n)) || Out(s, User(plan[n].source)).None? then None else
    match Deliver(plan[n], Out(s, User(plan[n].source)).value)
    case Now(o) => Some(o)
    case Later(g) =>
      if !Ran(s, AdoptThen(n)) || Out(s, User(g)).None? then None
      else if Out(s, User(g)).value.Resolved? || Ran(s, AdoptError(n)) then Out(s, User(g))
      else None
  }

  function WantThen(plan: Plan, s: State, n: nat): Option<Outcome>
    requires n < |plan|
  {
    if AdoptionOf(plan, s, n).None? || !Ran(s, AdoptThen(n)) then None else
    match Out(s, User(AdoptionOf(plan, s, n).value))
    case None => None
    case Some(o) => if o.Resolved? then Some(Resolved(VOID)) else Some(o)
  }

  predicate SourceIs(s: State, x: Id, f: Option<Id>) {
    if f.None? then x !in s.source else x in s.source && s.source[x] == f.value
  }

  ghost predicate SourcesOk(plan: Plan, s: State, n: nat)
    requires n < |plan|
  {
    && (User(n) in s.source ==> !plan[n].Root? && s.source[User(n)] == User(plan[n].source))
    && SourceIs(s, AdoptThen(n),
        if AdoptionOf(plan, s, n).None? then None else Some(User(AdoptionOf(plan, s, n).value)))
    && SourceIs(s, AdoptError(n), if AdoptionOf(plan, s, n).None? then None else Some(AdoptThen(n)))
  }

  ghost predicate OutcomesOk(plan: Plan, s: State, n: nat)
    requires n < |plan|
  {
    && (!plan[n].Root? ==> Out(s, User(n)) == Want(plan, s, n))
    && Out(s, AdoptThen(n)) == WantThen(plan, s, n)
    && Out(s, AdoptError(n)) == (if Ran(s, AdoptError(n)) then Some(Resolved(VOID)) else None)
  }

  ghost predicate Group(plan: Plan, s: State, n: nat)
    requires n < |plan|
  {
    SourcesOk(plan, s, n) && OutcomesOk(plan, s, n)
  }

  ghost predicate Groups(plan: Plan, s: State) {
    forall n: nat :: n < |plan| ==> Group(plan, s, n)
  }

  ghost predicate Inv(plan: Plan, s: State) {
    Core(plan, s) && Groups(plan, s)
  }

  // ---------- the groups that a step does not touch ----------

  /** Settled futures keep their outcome. */
  ghost predicate Grows(s: State, s': State) {
    forall f :: Out(s, f).Some? ==> Out(s', f) == Out(s, f)
  }

  ghost predicate Same(s: State, s': State, x: Id) {
    && Out(s', x) == Out(s, x) && Ran(s', x) == Ran(s, x)
    && (x in s.source <==> x in s'.source) && (x in s.source ==> s'.source[x] == s.source[x])
  }

  /** Actions that ran have a settled source: the outcomes their group reads cannot change any more. */
  lemma RanHasInput(plan: Plan, s: State, x: Id)
    requires Core(plan, s) && Ran(s, x)
    ensures x in s.source && Out(s, s.source[x]).Some?
  {
    assert Phase(s.actions[x], Input(s.futures, s.source, x));
  }

  lemma Bystander(plan: Plan, s: State, s': State, n: nat)
    requires n < |plan| && Core(plan, s) && Group(plan, s, n) && Grows(s, s')
    requires Same(s, s', User(n)) && Same(s, s', AdoptThen(n)) && Same(s, s', AdoptError(n))
    ensures Group(plan, s', n)
  {
    hide Core;
    RanInput(plan, s, User(n));
    RanInput(plan, s, AdoptThen(n));
    hide Deliver, Out, Ran;
  }

  lemma Bystanders(plan: Plan, s: State, s': State, k: nat)
    requires k < |plan| && Core(plan, s) && Groups(plan, s) && Grows(s, s')
    requires forall x: Id :: x.n != k ==> Same(s, s', x)
    requires Group(plan, s', k)
    ensures Groups(plan, s')
  {
    forall n: nat | n < |plan|
      ensures Group(plan, s', n)
    {
      if n != k {
        assert Same(s, s', User(n)) && Same(s, s', AdoptThen(n)) && Same(s, s', AdoptError(n));
        Bystander(plan, s, s', n);
      }
    }
  }

  // ---------- what a step changes, seen through outcomes, registrations and runs ----------

  ghost predicate Changes(s: State, s': State, outs: map<Id, Outcome>, links: map<Id, Id>, ran: Option<Id>) {
    && (forall x :: Out(s', x) == if x in outs then Some(outs[x]) else Out(s, x))
    && s'.futures.Keys == s.futures.Keys && s'.actions.Keys == s.actions.Keys
    && s'.source == s.source + links
    && (forall x :: Ran(s', x) == (Ran(s, x) || ran == Some(x)))
    && (forall x :: Spent(s', x) == Spent(s, x))
    && (Logged(s) ==> Logged(s'))
  }

  lemma SettleChanges(plan: Plan, s: State, f: Id, o: Outcome)
    requires Core(plan, s) && f in s.futures && Out(s, f) == None
    ensures SettleFuture(s, f, o).Done? && Core(plan, SettleFuture(s, f, o).state)
    ensures Changes(s, SettleFuture(s, f, o).state, map[f := o], map[], None)
  {
    hide Core, SettleFuture, Logged;
    SettlePending(plan, s, f, o);
    var s' := SettleFuture(s, f, o).state;
    if Logged(s) {
      SettleLog(plan, s, f, o);
    }
    assert s.source + map[] == s.source;
    forall x
      ensures Ran(s', x) == Ran(s, x) && Spent(s', x) == Spent(s, x)
    {
      SettleKeepsRan(plan, s, s', f, o, x);
    }
  }

  lemma SettleKeepsRan(plan: Plan, s: State, s': State, f: Id, o: Outcome, x: Id)
    requires Core(plan, s) && f in s.futures && Out(s, f) == None && SettleEffect(s, s', f, o)
    ensures Ran(s', x) == Ran(s, x) && Spent(s', x) == Spent(s, x)
  {
    if x in s.actions {
      assert Phase(s.actions[x], Input(s.futures, s.source, x));
    }
  }

  lemma AttachChanges(plan: Plan, s: State, f: Id, id: Id)
    requires Core(plan, s) && f in s.futures && id in s.actions && id !in s.source
    ensures Attach(s, f, id).Some? && Core(plan, Attach(s, f, id).value)
    ensures Changes(s, Attach(s, f, id).value, map[], map[id := f], None)
  {
    hide Core, Attach, Logged;
    AttachFresh(plan, s, f, id);
    var s' := Attach(s, f, id).value;
    if Logged(s) {
      AttachLog(plan, s, f, id);
    }
    assert s.source[id := f] == s.source + map[id := f];
    forall x
      ensures Out(s', x) == Out(s, x) && Ran(s', x) == Ran(s, x) && Spent(s', x) == Spent(s, x)
    {
      AttachKeeps(s, s', f, id, x);
    }
  }

  lemma AttachKeeps(s: State, s': State, f: Id, id: Id, x: Id)
    requires f in s.futures && id in s.actions && AttachEffect(s, s', f, id) && s.actions[id] == IDLE
    ensures Out(s', x) == Out(s, x) && Ran(s', x) == Ran(s, x) && Spent(s', x) == Spent(s, x)
  {
  }

  lemma ClosingChanges(plan: Plan, s: State, id: Id)
    requires Core(plan, s) && id in s.actions && s.actions[id].handle == Sent
    ensures Core(plan, WithHandle(s, id, s.actions[id].(handle := Closing), Executed(id)))
    ensures Changes(s, WithHandle(s, id, s.actions[id].(handle := Closing), Executed(id)), map[], map[], Some(id))
  {
    hide Core, Logged;
    MarkClosing(plan, s, id);
    assert s.source + map[] == s.source;
  }

  lemma Compose(s: State, s1: State, s2: State, outs1: map<Id, Outcome>, outs2: map<Id, Outcome>,
                links1: map<Id, Id>, links2: map<Id, Id>, ran: Option<Id>)
    requires Changes(s, s1, outs1, links1, None) && Changes(s1, s2, outs2, links2, ran)
    ensures Changes(s, s2, outs1 + outs2, links1 + links2, ran)
  {
    hide Logged, Out, Ran, Spent;
  }

  /** Settling two pending futures one after the other. */
  lemma SettleTwo(plan: Plan, s: State, f: Id, o: Outcome, g: Id, p: Outcome)
    requires Core(plan, s) && f in s.futures && g in s.futures && f != g && Out(s, f) == None && Out(s, g) == None
    ensures SettleFuture(s, f, o).Done?
    ensures SettleFuture(SettleFuture(s, f, o).state, g, p).Done?
    ensures var s2 := SettleFuture(SettleFuture(s, f, o).state, g, p).state;
      Core(plan, s2) && Changes(s, s2, map[f := o, g := p], map[], None)
  {
    hide Core, SettleFuture;
    SettleChanges(plan, s, f, o);
    var s1 := SettleFuture(s, f, o).state;
    SettleChanges(plan, s1, g, p);
    var s2 := SettleFuture(s1, g, p).state;
    Compose(s, s1, s2, map[f := o], map[g := p], map[], map[], None);
    assert map[f := o] + map[g := p] == map[f := o, g := p];
    var none: map<Id, Id> := map[];
    assert none + none == none;
  }

  lemma AttachTwo(plan: Plan, s: State, g: Id, n: nat)
    requires Core(plan, s) && g in s.futures
    requires AdoptThen(n) in s.actions && AdoptThen(n) in s.futures && AdoptError(n) in s.actions
    requires AdoptThen(n) !in s.source && AdoptError(n) !in s.source
    ensures Attach(s, g, AdoptThen(n)).Some?
    ensures Attach(Attach(s, g, AdoptThen(n)).value, AdoptThen(n), AdoptError(n)).Some?
    ensures var s2 := Attach(Attach(s, g, AdoptThen(n)).value, AdoptThen(n), AdoptError(n)).value;
      Core(plan, s2) && Changes(s, s2, map[], map[AdoptThen(n) := g, AdoptError(n) := AdoptThen(n)], None)
  {
    hide Core, Attach;
    AttachChanges(plan, s, g, AdoptThen(n));
    var s1 := Attach(s, g, AdoptThen(n)).value;
    AttachChanges(plan, s1, AdoptThen(n), AdoptError(n));
    var s2 := Attach(s1, AdoptThen(n), AdoptError(n)).value;
    Compose(s, s1, s2, map[], map[], map[AdoptThen(n) := g], map[AdoptError(n) := AdoptThen(n)], None);
    assert map[AdoptThen(n) := g] + map[AdoptError(n) := AdoptThen(n)]
        == map[AdoptThen(n) := g, AdoptError(n) := AdoptThen(n)];
    var none: map<Id, Outcome> := map[];
    assert none + none == none;
  }

  // ---------- what running one handle changes ----------

  /** The handle is sent: it is registered, its source is settled, and it has not run. */
  ghost predicate Ready(plan: Plan, s: State, id: Id, o: Outcome) {
    && Inv(plan, s) && id.n < |plan|
    && id in s.source && Out(s, s.source[id]) == Some(o) && !Ran(s, id)
  }

  lemma SentIsReady(plan: Plan, s: State, id: Id)
    requires Inv(plan, s) && id in s.actions && s.actions[id].handle == Sent
    ensures s.actions[id].data && s.actions[id].resolver.Some?
    ensures Ready(plan, s, id, s.actions[id].resolver.value)
  {
    assert Phase(s.actions[id], Input(s.futures, s.source, id));
  }

  /** New outcomes and registrations of one run, by the kind of the action. */
  function NewOutcomes(plan: Plan, id: Id, o: Outcome): map<Id, Outcome>
    requires id.n < |plan|
  {
    match id
    case User(n) =>
      (match Deliver(plan[n], o)
       case Now(p) => map[id := p]
       case Later(_) => map[])
    case AdoptThen(n) => if o.Resolved? then map[User(n) := o, id := Resolved(VOID)] else map[id := o]
    case AdoptError(n) => if o.Resolved? then map[id := o] else map[User(n) := o, id := Resolved(VOID)]
  }

  function NewLinks(plan: Plan, id: Id, o: Outcome): map<Id, Id>
    requires id.n < |plan|
  {
    if !id.User? then map[] else
    match Deliver(plan[id.n], o)
    case Now(_) => map[]
    case Later(g) => map[AdoptThen(id.n) := User(g), AdoptError(id.n) := AdoptThen(id.n)]
  }

  lemma AllIds(plan: Plan, s: State)
    requires Core(plan, s)
    ensures forall x: Id :: x.n < |plan| ==> x in s.futures && x in s.actions
  {
    hide Registered, Phases;
  }

  lemma ReadyIsPending(plan: Plan, s: State, id: Id, o: Outcome)
    requires Ready(plan, s, id, o)
    ensures Core(plan, s) && id in s.futures && Out(s, id) == None
    ensures forall g: nat :: g < |plan| ==> User(g) in s.futures
    ensures id.AdoptThen? ==> Out(s, User(id.n)) == None
    ensures id.AdoptError? && o.Rejected? ==> Out(s, User(id.n)) == None
    ensures id.AdoptError? && o.Resolved? ==> o == Resolved(VOID)
    ensures id.User? ==>
      AdoptThen(id.n) in s.actions && AdoptThen(id.n) in s.futures && AdoptError(id.n) in s.actions &&
      !plan[id.n].Root? && s.source[id] == User(plan[id.n].source) &&
      AdoptThen(id.n) !in s.source && AdoptError(id.n) !in s.source
  {
    AllIds(plan, s);
    GroupAt(plan, s, id.n);
    hide Core, Groups, Deliver, Out, Ran;
  }

  lemma ExecuteNow(plan: Plan, s: State, n: nat, o: Outcome, p: Outcome)
    requires n < |plan| && !plan[n].Root? && Deliver(plan[n], o) == Now(p) && SettleFuture(s, User(n), p).Done?
    ensures Execute(plan, s, User(n), o) == Some(SettleFuture(s, User(n), p).state)
  {
    hide SettleFuture, Attach;
  }

  lemma ExecuteLater(plan: Plan, s: State, n: nat, o: Outcome, g: nat)
    requires n < |plan| && !plan[n].Root? && Deliver(plan[n], o) == Later(g)
    requires Attach(s, User(g), AdoptThen(n)).Some?
    ensures Execute(plan, s, User(n), o) == Attach(Attach(s, User(g), AdoptThen(n)).value, AdoptThen(n), AdoptError(n))
  {
    hide SettleFuture, Attach;
  }

  lemma LaterInPlan(plan: Plan, n: nat, o: Outcome, g: nat)
    requires WellFormed(plan) && n < |plan| && !plan[n].Root? && Deliver(plan[n], o) == Later(g)
    ensures g < |plan|
  {
    if plan[n].Then? {
      assert WellFormedReply(plan, plan[n].onValue(o.value));
    }
  }

  lemma ExecuteUserNow(plan: Plan, s: State, n: nat, o: Outcome, p: Outcome)
    requires n < |plan| && !plan[n].Root? && Deliver(plan[n], o) == Now(p)
    requires Core(plan, s) && User(n) in s.futures && Out(s, User(n)) == None
    ensures Execute(plan, s, User(n), o).Some?
    ensures var s' := Execute(plan, s, User(n), o).value;
      Core(plan, s') && Changes(s, s', NewOutcomes(plan, User(n), o), NewLinks(plan, User(n), o), None)
  {
    hide SettleFuture, Attach, Execute, Deliver, Changes, Core;
    SettleChanges(plan, s, User(n), p);
    ExecuteNow(plan, s, n, o, p);
  }

  lemma ExecuteUserLater(plan: Plan, s: State, n: nat, o: Outcome, g: nat)
    requires n < |plan| && !plan[n].Root? && Deliver(plan[n], o) == Later(g)
    requires Core(plan, s) && User(g) in s.futures
    requires AdoptThen(n) in s.actions && AdoptThen(n) in s.futures && AdoptError(n) in s.actions
    requires AdoptThen(n) !in s.source && AdoptError(n) !in s.source
    ensures Execute(plan, s, User(n), o).Some?
    ensures var s' := Execute(plan, s, User(n), o).value;
      Core(plan, s') && Changes(s, s', NewOutcomes(plan, User(n), o), NewLinks(plan, User(n), o), None)
  {
    hide SettleFuture, Attach, Execute, Deliver, Changes, Core;
    AttachTwo(plan, s, User(g), n);
    ExecuteLater(plan, s, n, o, g);
  }

  lemma ExecuteUser(plan: Plan, s: State, n: nat, o: Outcome)
    requires WellFormed(plan) && Ready(plan, s, User(n), o)
    ensures Execute(plan, s, User(n), o).Some?
    ensures var s' := Execute(plan, s, User(n), o).value;
      Core(plan, s') && Changes(s, s', NewOutcomes(plan, User(n), o), NewLinks(plan, User(n), o), None)
  {
    assert n < |plan|;
    hide WellFormed, Ready, Execute, Deliver, Changes, Core, NewOutcomes, NewLinks;
    ReadyIsPending(plan, s, User(n), o);
    match Deliver(plan[n], o) {
      case Now(p) =>
        ExecuteUserNow(plan, s, n, o, p);
      case Later(g) =>
        LaterInPlan(plan, n, o, g);
        ExecuteUserLater(plan, s, n, o, g);
    }
  }

  lemma ExecuteAdoption(plan: Plan, s: State, id: Id, o: Outcome)
    requires Ready(plan, s, id, o) && !id.User?
    ensures Execute(plan, s, id, o).Some?
    ensures var s' := Execute(plan, s, id, o).value;
      Core(plan, s') && Changes(s, s', NewOutcomes(plan, id, o), NewLinks(plan, id, o), None)
  {
    ReadyIsPending(plan, s, id, o);
    if id.AdoptThen? == o.Resolved? {
      SettleTwo(plan, s, User(id.n), o, id, Resolved(VOID));
    } else {
      SettleChanges(plan, s, id, o);
    }
  }

  lemma ExecuteReady(plan: Plan, s: State, id: Id, o: Outcome)
    requires WellFormed(plan) && Ready(plan, s, id, o)
    ensures Execute(plan, s, id, o).Some?
    ensures var s' := Execute(plan, s, id, o).value;
      Core(plan, s') && Changes(s, s', NewOutcomes(plan, id, o), NewLinks(plan, id, o), None)
  {
    if id.User? {
      hide *;
      ExecuteUser(plan, s, id.n, o);
    } else {
      hide *;
      ExecuteAdoption(plan, s, id, o);
    }
  }

  lemma LinksOther(plan: Plan, id: Id, o: Outcome)
    requires id.n < |plan|
    ensures id !in NewLinks(plan, id, o)
  {
  }

  /** A sent handle whose callback comes back is still marked as sent. */
  lemma StillSent(plan: Plan, s: State, s': State, id: Id, outs: map<Id, Outcome>, links: map<Id, Id>)
    requires id in s.source && Out(s, s.source[id]).Some? && !Ran(s, id) && id !in links
    requires Core(plan, s') && Changes(s, s', outs, links, None)
    ensures id in s'.actions && s'.actions[id].handle == Sent
  {
    hide Core;
    ChangesWaiting(s, s', outs, links, id);
    BusyIsSent(plan, s', id);
  }

  lemma ReadyWaits(plan: Plan, s: State, id: Id, o: Outcome)
    requires Ready(plan, s, id, o)
    ensures id in s.source && Out(s, s.source[id]).Some? && !Ran(s, id)
  {
  }

  lemma ChangesWaiting(s: State, s': State, outs: map<Id, Outcome>, links: map<Id, Id>, id: Id)
    requires Changes(s, s', outs, links, None)
    requires id in s.source && id !in links && Out(s, s.source[id]).Some? && !Ran(s, id)
    ensures id in s'.source && Out(s', s'.source[id]).Some? && !Ran(s', id)
  {
  }

  lemma BusyIsSent(plan: Plan, s: State, id: Id)
    requires Core(plan, s) && id in s.source && Out(s, s.source[id]).Some? && !Ran(s, id)
    ensures id in s.actions && s.actions[id].handle == Sent
  {
    assert Phase(s.actions[id], Input(s.futures, s.source, id));
  }

  lemma FinishRun(plan: Plan, s: State, s1: State, id: Id, outs: map<Id, Outcome>, links: map<Id, Id>)
    requires Core(plan, s1) && Changes(s, s1, outs, links, None)
    requires id in s1.actions && s1.actions[id].handle == Sent
    ensures var s2 := WithHandle(s1, id, s1.actions[id].(handle := Closing), Executed(id));
      Core(plan, s2) && Changes(s, s2, outs, links, Some(id))
  {
    hide Core, Changes;
    ClosingChanges(plan, s1, id);
    Compose(s, s1, WithHandle(s1, id, s1.actions[id].(handle := Closing), Executed(id)), outs, map[], links, map[],
      Some(id));
    assert outs + map[] == outs && links + map[] == links;
  }

  /** Running a sent handle never fails, and changes only what its kind says. */
  lemma RunChanges(plan: Plan, s: State, id: Id)
    requires WellFormed(plan) && Inv(plan, s) && id.n < |plan|
    requires id in s.actions && s.actions[id].handle == Sent
    ensures Apply(plan, s, Run(id)).Some?
    ensures s.actions[id].resolver.Some? && Ready(plan, s, id, s.actions[id].resolver.value)
    ensures var o, s' := s.actions[id].resolver.value, Apply(plan, s, Run(id)).value;
      Core(plan, s') && Changes(s, s', NewOutcomes(plan, id, o), NewLinks(plan, id, o), Some(id))
  {
    hide Inv, WellFormed, Ready, Execute, Core, Changes, NewOutcomes, NewLinks;
    SentIsReady(plan, s, id);
    var o := s.actions[id].resolver.value;
    ExecuteReady(plan, s, id, o);
    var s1 := Execute(plan, s, id, o).value;
    LinksOther(plan, id, o);
    ReadyWaits(plan, s, id, o);
    StillSent(plan, s, s1, id, NewOutcomes(plan, id, o), NewLinks(plan, id, o));
    FinishRun(plan, s, s1, id, NewOutcomes(plan, id, o), NewLinks(plan, id, o));
    assert Apply(plan, s, Run(id)) == Some(WithHandle(s1, id, s1.actions[id].(handle := Closing), Executed(id)));
  }

  // ---------- every step keeps the invariant ----------

  /** The invariant holds again, and outcomes, registrations and a consistent log are not lost. */
  ghost predicate Keeps(plan: Plan, s: State, s': State) {
    && Inv(plan, s') && Grows(s, s')
    && (forall x :: x in s.source ==> x in s'.source)
    && (Logged(s) ==> Logged(s'))
  }

  lemma ChangesGrow(s: State, s': State, n: nat, outs: map<Id, Outcome>, links: map<Id, Id>, id: Id)
    requires Changes(s, s', outs, links, Some(id)) && id.n == n
    requires forall x :: x in outs ==> x.n == n && Out(s, x) == None
    requires forall x :: x in links ==> x.n == n
    ensures Grows(s, s')
    ensures forall x: Id :: x.n != n ==> Same(s, s', x)
  {
  }

  lemma NewArePending(plan: Plan, s: State, id: Id, o: Outcome)
    requires id.n < |plan| && Out(s, id) == None
    requires id.AdoptThen? ==> Out(s, User(id.n)) == None
    requires id.AdoptError? && o.Rejected? ==> Out(s, User(id.n)) == None
    ensures forall x :: x in NewOutcomes(plan, id, o) ==> x.n == id.n && Out(s, x) == None
    ensures forall x :: x in NewLinks(plan, id, o) ==> x.n == id.n
  {
    hide Out, Deliver;
  }

  lemma RunGrows(plan: Plan, s: State, s': State, id: Id, o: Outcome)
    requires Ready(plan, s, id, o)
    requires Changes(s, s', NewOutcomes(plan, id, o), NewLinks(plan, id, o), Some(id))
    ensures Grows(s, s')
    ensures forall x: Id :: x.n != id.n ==> Same(s, s', x)
  {
    assert id.n < |plan|;
    hide Ready, Core, Changes, NewOutcomes, NewLinks;
    ReadyIsPending(plan, s, id, o);
    NewArePending(plan, s, id, o);
    ChangesGrow(s, s', id.n, NewOutcomes(plan, id, o), NewLinks(plan, id, o), id);
  }

  /** The group of an action whose callback has just run, and nothing of it before. */
  lemma RunUserGroup(plan: Plan, s: State, s': State, n: nat, o: Outcome)
    requires n < |plan| && !plan[n].Root? && Group(plan, s, n) && !Ran(s, User(n)) && Grows(s, s')
    requires User(n) in s.source && Out(s, User(plan[n].source)) == Some(o)
    requires forall x: Id :: x.n == n && Ran(s, x) ==> x in s.source
    requires Changes(s, s', NewOutcomes(plan, User(n), o), NewLinks(plan, User(n), o), Some(User(n)))
    ensures Group(plan, s', n)
  {
    hide Grows;
    var source := User(plan[n].source);
    assert Out(s', source) == Some(o) && Ran(s', User(n)) by {
      assert Out(s', source) == Out(s, source) by { GrowsAt(s, s', source); }
    }
    assert !Ran(s', AdoptThen(n)) && !Ran(s', AdoptError(n));
  }

  lemma GrowsAt(s: State, s': State, f: Id)
    requires Grows(s, s') && Out(s, f).Some?
    ensures Out(s', f) == Out(s, f)
  {
  }

  lemma RunThenGroup(plan: Plan, s: State, s': State, n: nat, g: nat, o: Outcome)
    requires n < |plan| && !plan[n].Root? && Group(plan, s, n) && !Ran(s, AdoptThen(n)) && !Ran(s, AdoptError(n))
    requires AdoptionOf(plan, s, n) == AdoptionOf(plan, s', n) == Some(g) && Out(s', User(plan[n].source)).Some?
    requires Out(s, User(g)) == Out(s', User(g)) == Some(o)
    requires Changes(s, s', NewOutcomes(plan, AdoptThen(n), o), map[], Some(AdoptThen(n)))
    ensures Group(plan, s', n)
  {
    assert s'.source == s.source;
  }

  lemma RunErrorGroup(plan: Plan, s: State, s': State, n: nat, g: nat, o: Outcome, p: Outcome)
    requires n < |plan| && !plan[n].Root? && Group(plan, s, n) && Ran(s, AdoptThen(n)) && !Ran(s, AdoptError(n))
    requires AdoptionOf(plan, s, n) == AdoptionOf(plan, s', n) == Some(g) && Out(s', User(plan[n].source)).Some?
    requires Out(s, User(g)) == Out(s', User(g)) == Some(p)
    requires Out(s, AdoptThen(n)) == Some(o)
    requires Changes(s, s', NewOutcomes(plan, AdoptError(n), o), map[], Some(AdoptError(n)))
    ensures Group(plan, s', n)
  {
    assert s'.source == s.source;
    assert o == if p.Resolved? then Resolved(VOID) else p;
  }

  /** An adoption in progress reads only settled outcomes, so it survives any growth. */
  lemma AdoptionStays(plan: Plan, s: State, s': State, n: nat)
    requires n < |plan| && AdoptionOf(plan, s, n).Some? && Grows(s, s') && Ran(s', User(n))
    ensures AdoptionOf(plan, s', n) == AdoptionOf(plan, s, n) && Out(s', User(plan[n].source)).Some?
  {
    GrowsAt(s, s', User(plan[n].source));
  }

  /** A running adoption: its future g is settled, and the group is as far as `id` says. */
  lemma AdoptionUnderWay(plan: Plan, s: State, id: Id, o: Outcome)
    requires Ready(plan, s, id, o) && !id.User?
    ensures Group(plan, s, id.n) && !plan[id.n].Root? && !Ran(s, id) && !Ran(s, AdoptError(id.n))
    ensures AdoptionOf(plan, s, id.n).Some?
    ensures id.AdoptThen? ==> Out(s, User(AdoptionOf(plan, s, id.n).value)) == Some(o)
    ensures id.AdoptError? ==>
      Ran(s, AdoptThen(id.n)) && Out(s, AdoptThen(id.n)) == Some(o) &&
      Out(s, User(AdoptionOf(plan, s, id.n).value)).Some?
  {
    assert Group(plan, s, id.n);
    RanInput(plan, s, AdoptError(id.n));
    hide Core, Groups;
  }

  lemma RunAdoptionGroup(plan: Plan, s: State, s': State, id: Id, o: Outcome)
    requires Ready(plan, s, id, o) && Grows(s, s') && !id.User?
    requires Changes(s, s', NewOutcomes(plan, id, o), NewLinks(plan, id, o), Some(id))
    ensures Group(plan, s', id.n)
  {
    var n := id.n;
    assert n < |plan|;
    hide Ready, Grows, Deliver, Group, AdoptionOf, NewOutcomes;
    AdoptionUnderWay(plan, s, id, o);
    assert Ran(s', User(n)) by { AdoptionRan(plan, s, n); }
    AdoptionStays(plan, s, s', n);
    var g := AdoptionOf(plan, s, n).value;
    GrowsAt(s, s', User(g));
    if id.AdoptThen? {
      RunThenGroup(plan, s, s', n, g, o);
    } else {
      RunErrorGroup(plan, s, s', n, g, o, Out(s, User(g)).value);
    }
  }

  lemma AdoptionRan(plan: Plan, s: State, n: nat)
    requires n < |plan| && AdoptionOf(plan, s, n).Some?
    ensures Ran(s, User(n))
  {
  }

  lemma RanInput(plan: Plan, s: State, x: Id)
    requires Core(plan, s)
    ensures Ran(s, x) ==> x in s.source && Out(s, s.source[x]).Some?
  {
    if Ran(s, x) {
      RanHasInput(plan, s, x);
    }
  }

  /** The loop runs a sent handle. */
  lemma RunKeepsInv(plan: Plan, s: State, id: Id)
    requires WellFormed(plan) && Inv(plan, s) && Enabled(plan, s, Run(id))
    ensures Apply(plan, s, Run(id)).Some? && Keeps(plan, s, Apply(plan, s, Run(id)).value)
  {
    assert id.n < |plan| && Core(plan, s) && Groups(plan, s);
    hide Inv, Core, Groups, WellFormed, Ready, Apply, Grows, Group, NewOutcomes, NewLinks, Logged;
    RunChanges(plan, s, id);
    var o := s.actions[id].resolver.value;
    var s' := Apply(plan, s, Run(id)).value;
    RunGrows(plan, s, s', id, o);
    if id.User? {
      RunUserReady(plan, s, id.n, o);
      RunUserGroup(plan, s, s', id.n, o);
    } else {
      RunAdoptionGroup(plan, s, s', id, o);
    }
    hide Changes, Same;
    Bystanders(plan, s, s', id.n);
    RunKeeps(plan, s, s', NewOutcomes(plan, id, o), NewLinks(plan, id, o), Some(id));
  }

  lemma RunKeeps(plan: Plan, s: State, s': State, outs: map<Id, Outcome>, links: map<Id, Id>, ran: Option<Id>)
    requires Changes(s, s', outs, links, ran) && Core(plan, s') && Groups(plan, s') && Grows(s, s')
    ensures Keeps(plan, s, s')
  {
  }

  lemma RunUserReady(plan: Plan, s: State, n: nat, o: Outcome)
    requires Ready(plan, s, User(n), o)
    ensures !plan[n].Root? && Group(plan, s, n) && !Ran(s, User(n))
    ensures User(n) in s.source && Out(s, User(plan[n].source)) == Some(o)
    ensures forall x: Id :: x.n == n && Ran(s, x) ==> x in s.source
  {
    ReadyIsPending(plan, s, User(n), o);
    assert Group(plan, s, n);
    forall x: Id | x.n == n && Ran(s, x)
      ensures x in s.source
    {
      RanHasInput(plan, s, x);
    }
  }

  lemma SameGroups(plan: Plan, s: State, s': State)
    requires Core(plan, s) && Groups(plan, s) && Grows(s, s')
    requires forall x: Id :: Same(s, s', x)
    ensures Groups(plan, s')
  {
    forall n: nat | n < |plan|
      ensures Group(plan, s', n)
    {
      assert Same(s, s', User(n)) && Same(s, s', AdoptThen(n)) && Same(s, s', AdoptError(n));
      hide *;
      assert Group(plan, s, n) by { GroupAt(plan, s, n); }
      Bystander(plan, s, s', n);
    }
  }

  lemma GroupAt(plan: Plan, s: State, n: nat)
    requires Groups(plan, s) && n < |plan|
    ensures Group(plan, s, n)
  {
  }

  /** libuv reports that a handle is closed. */
  lemma EndKeepsInv(plan: Plan, s: State, id: Id)
    requires Inv(plan, s) && Enabled(plan, s, End(id))
    ensures Apply(plan, s, End(id)).Some? && Keeps(plan, s, Apply(plan, s, End(id)).value)
  {
    EndApplies(plan, s, id);
    hide *;
    SameGroups(plan, s, WithHandle(s, id, SPENT, Ended(id)));
    EndKeeps(plan, s, WithHandle(s, id, SPENT, Ended(id)));
  }

  lemma EndApplies(plan: Plan, s: State, id: Id)
    requires Inv(plan, s) && Enabled(plan, s, End(id))
    ensures Core(plan, s) && Groups(plan, s)
    ensures var s' := WithHandle(s, id, SPENT, Ended(id));
      && Apply(plan, s, End(id)) == Some(s')
      && Core(plan, s') && (Logged(s) ==> Logged(s'))
      && s'.source == s.source && Grows(s, s') && (forall x :: Same(s, s', x))
  {
    hide Core, Groups, Logged;
    EndHandle(plan, s, id);
  }

  lemma EndKeeps(plan: Plan, s: State, s': State)
    requires s'.source == s.source && Core(plan, s') && Groups(plan, s') && Grows(s, s') && (Logged(s) ==> Logged(s'))
    ensures Keeps(plan, s, s')
  {
  }

  /** The user settles a root: the first time fixes its outcome, later times change nothing. */
  lemma SettleRootKeepsInv(plan: Plan, s: State, n: nat, o: Outcome)
    requires Inv(plan, s) && Enabled(plan, s, SettleRoot(n, o))
    ensures Apply(plan, s, SettleRoot(n, o)).Some? && Keeps(plan, s, Apply(plan, s, SettleRoot(n, o)).value)
    ensures Out(s, User(n)).Some? ==> Apply(plan, s, SettleRoot(n, o)).value == s
    ensures Out(s, User(n)).None? ==> Out(Apply(plan, s, SettleRoot(n, o)).value, User(n)) == Some(o)
  {
    AllIds(plan, s);
    if Out(s, User(n)).None? {
      SettleChanges(plan, s, User(n), o);
      var s' := SettleFuture(s, User(n), o).state;
      assert Apply(plan, s, SettleRoot(n, o)) == Some(s');
      RootGroup(plan, s, s', n, o);
      hide Core, Groups, Apply, SettleFuture, Group;
      Bystanders(plan, s, s', n);
    }
  }

  lemma RootGroup(plan: Plan, s: State, s': State, n: nat, o: Outcome)
    requires n < |plan| && plan[n].Root? && Groups(plan, s) && Out(s, User(n)) == None
    requires Changes(s, s', map[User(n) := o], map[], None)
    ensures Group(plan, s', n) && Grows(s, s')
    ensures forall x: Id :: x.n != n ==> Same(s, s', x)
  {
    GroupAt(plan, s, n);
    hide Groups;
    assert s'.source == s.source;
  }

  /** The user calls then, error or finally. */
  lemma RegisterKeepsInv(plan: Plan, s: State, n: nat)
    requires WellFormed(plan) && Inv(plan, s) && Enabled(plan, s, Register(n))
    ensures Apply(plan, s, Register(n)).Some? && Keeps(plan, s, Apply(plan, s, Register(n)).value)
  {
    var f := User(plan[n].source);
    hide Core, Groups, Attach, Group;
    AllIds(plan, s);
    RanInput(plan, s, User(n));
    AttachChanges(plan, s, f, User(n));
    var s' := Attach(s, f, User(n)).value;
    RegisterGroup(plan, s, s', n);
    Bystanders(plan, s, s', n);
  }

  lemma RegisterGroup(plan: Plan, s: State, s': State, n: nat)
    requires n < |plan| && !plan[n].Root? && Groups(plan, s) && User(n) !in s.source && !Ran(s, User(n))
    requires Changes(s, s', map[], map[User(n) := User(plan[n].source)], None)
    ensures Group(plan, s', n) && Grows(s, s')
    ensures forall x: Id :: x.n != n ==> Same(s, s', x)
  {
    GroupAt(plan, s, n);
    hide Groups;
  }

  lemma InitInv(plan: Plan)
    ensures Inv(plan, Init(plan)) && Logged(Init(plan))
  {
    hide Core, Groups, Logged;
    InitCore(plan);
    InitGroups(plan);
    InitLogged(plan);
  }

  lemma InitCore(plan: Plan)
    ensures Core(plan, Init(plan))
  {
  }

  lemma InitGroups(plan: Plan)
    ensures Groups(plan, Init(plan))
  {
  }

  lemma InitLogged(plan: Plan)
    ensures Logged(Init(plan))
  {
  }

  /** No step fails, and every step keeps the invariant and the settled outcomes. */
  lemma StepKeepsInv(plan: Plan, s: State, step: Step)
    requires WellFormed(plan) && Inv(plan, s) && Enabled(plan, s, step)
    ensures Apply(plan, s, step).Some? && Keeps(plan, s, Apply(plan, s, step).value)
  {
    hide Inv, Keeps, Enabled, Apply, WellFormed;
    match step {
      case SettleRoot(n, o) => SettleRootKeepsInv(plan, s, n, o);
      case Register(n) => RegisterKeepsInv(plan, s, n);
      case Run(id) => RunKeepsInv(plan, s, id);
      case End(id) => EndKeepsInv(plan, s, id);
    }
  }
}
