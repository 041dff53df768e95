/**
 The promise machine: every future and action of one event loop, and the steps
 that the user and the loop can take, in any order.

 A plan names the futures a program will ever make. A future is a root, settled by
 the user through its Promise, or is derived from an earlier future by then, error
 or finally. A derived future and the action that settles it share one name. When
 the callback of `User(n)` returns a future, the library itself registers two more
 callbacks on it, a then and an error: those are `AdoptThen(n)` and `AdoptError(n)`.
 */
module PromiseMachine {
  import opened Wrappers
  import opened AsyncAction

  /** What a callback does: it returns a value, throws a FutureError or returns a future. */
  datatype Reply = Return(value: Value) | Throw(error: Error) | ReturnFuture(future: nat)

  /** How a future comes about. An error callback cannot return a future. */
  datatype Link =
    | Root
    | Then(source: nat, onValue: Value -> Reply)
    | OnError(source: nat, onError: Error -> Outcome)
    | Finally(source: nat, always: Reply)

  type Plan = seq<Link>

  ghost predicate WellFormed(plan: Plan) {
    forall n :: 0 <= n < |plan| ==>
      && (!plan[n].Root? ==> plan[n].source < n)
      && (plan[n].Then? ==> forall v {:trigger plan[n].onValue(v)} :: WellFormedReply(plan, plan[n].onValue(v)))
      && (plan[n].Finally? ==> WellFormedReply(plan, plan[n].always))
  }

  predicate WellFormedReply(plan: Plan, r: Reply) {
    r.ReturnFuture? ==> r.future < |plan|
  }

  datatype Id = User(n: nat) | AdoptThen(n: nat) | AdoptError(n: nat)

  datatype Future = Future(resolver: Option<Outcome>, actions: seq<Id>)

  datatype Event = Enqueued(id: Id, outcome: Outcome) | Executed(id: Id) | Ended(id: Id)

  /** `source` says where an action is registered; `log` records what happened to the handles. */
  datatype State = State(
    futures: map<Id, Future>,
    actions: map<Id, Action>,
    source: map<Id, Id>,
    log: seq<Event>)

  function Ids(plan: Plan): set<Id> {
    (set n | 0 <= n < |plan| :: User(n)) +
    (set n | 0 <= n < |plan| :: AdoptThen(n)) +
    (set n | 0 <= n < |plan| :: AdoptError(n))
  }

  function Init(plan: Plan): State {
    State(map id | id in Ids(plan) :: Future(None, []), map id | id in Ids(plan) :: IDLE, map[], [])
  }

  /** Every id of the plan, and no other. */
  ghost predicate Covers(plan: Plan, ids: set<Id>) {
    forall id :: id in ids <==> id.n < |plan|
  }

  // ---------- the operations, `None` meaning an assertion or an exception that escapes ----------

  /** resolve or reject of one action. */
  function SettleAction(s: State, id: Id, o: Outcome): Option<State> {
    if id !in s.actions then None else
    match Settle(s.actions[id], o)
    case None => None
    case Some(a) => Some(s.(actions := s.actions[id := a], log := s.log + [Enqueued(id, o)]))
  }

  /** The loop over _actions in FutureShared::resolve and reject. */
  function FanOut(s: State, ids: seq<Id>, o: Outcome): Option<State>
    decreases |ids|
  {
    if ids == [] then Some(s) else
    match SettleAction(s, ids[0], o)
    case None => None
    case Some(s') => FanOut(s', ids[1..], o)
  }

  datatype Settlement = Done(state: State) | AlreadySatisfied | Fault

  /** FutureShared::resolve and reject. */
  function SettleFuture(s: State, f: Id, o: Outcome): Settlement {
    if f !in s.futures then Fault
    else if s.futures[f].resolver.Some? then AlreadySatisfied
    else
      var fut := s.futures[f];
      match FanOut(s.(futures := s.futures[f := fut.(resolver := Some(o))]), fut.actions, o)
      case None => Fault
      case Some(s') => Done(s')
  }

  /** try { settle with o } catch (FutureError e) { reject with e }. */
  function SettleOrReject(s: State, f: Id, o: Outcome): Option<State> {
    match SettleFuture(s, f, o)
    case Done(s') => Some(s')
    case Fault => None
    case AlreadySatisfied =>
      match SettleFuture(s, f, Rejected(PromiseAlreadySatisfied))
      case Done(s') => Some(s')
      case _ => None
  }

  /** Settling outside any try block: the exception escapes into the loop. */
  function SettleOrEscape(s: State, f: Id, o: Outcome): Option<State> {
    match SettleFuture(s, f, o)
    case Done(s') => Some(s')
    case _ => None
  }

  /** then, error and finally: register the action, and enqueue it if the future is settled. */
  function Attach(s: State, f: Id, id: Id): Option<State> {
    if f !in s.futures then None else
    var fut := s.futures[f];
    var s' := s.(futures := s.futures[f := fut.(actions := fut.actions + [id])], source := s.source[id := f]);
    match fut.resolver
    case None => Some(s')
    case Some(o) => SettleAction(s', id, o)
  }

  /** The tail of callFn: what happens once the callback has returned or thrown. */
  function Answer(s: State, n: nat, r: Reply): Option<State> {
    match r
    case Return(v) => SettleOrReject(s, User(n), Resolved(v))
    case Throw(e) => SettleOrEscape(s, User(n), Rejected(e))
    case ReturnFuture(g) =>
      match Attach(s, User(g), AdoptThen(n))
      case None => None
      case Some(s') => Attach(s', AdoptThen(n), AdoptError(n))
  }

  /** A callback that settles User(n) and is itself the callback of `id`. */
  function Forward(s: State, id: Id, o: Outcome): Option<State> {
    match SettleFuture(s, User(id.n), o)
    case Fault => None
    case Done(s') => SettleOrReject(s', id, Resolved(VOID))
    case AlreadySatisfied => SettleOrEscape(s, id, Rejected(PromiseAlreadySatisfied))
  }

  /** resolveCb or rejectCb of the action, by its kind. */
  function Execute(plan: Plan, s: State, id: Id, o: Outcome): Option<State>
    requires id.n < |plan|
  {
    match id
    case User(n) =>
      (match plan[n]
       case Root => None
       case Then(_, f) => if o.Resolved? then Answer(s, n, f(o.value)) else SettleOrEscape(s, id, o)
       case OnError(_, g) =>
         if o.Resolved? then SettleOrEscape(s, id, o)
         else if g(o.error).Resolved? then SettleOrReject(s, id, g(o.error))
         else SettleOrEscape(s, id, g(o.error))
       case Finally(_, r) => Answer(s, n, r))
    case AdoptThen(n) => if o.Resolved? then Forward(s, id, o) else SettleOrEscape(s, id, o)
    case AdoptError(n) => if o.Resolved? then SettleOrEscape(s, id, o) else Forward(s, id, o)
  }

  // ---------- steps ----------

  /** The user settles a root or registers a callback; the loop runs a sent handle or ends a closing one. */
  datatype Step =
    | SettleRoot(n: nat, outcome: Outcome)
    | Register(n: nat)
    | Run(id: Id)
    | End(id: Id)
  {
    predicate OfLoop() {
      Run? || End?
    }
  }

  predicate Enabled(plan: Plan, s: State, step: Step) {
    match step
    case SettleRoot(n, _) => n < |plan| && plan[n].Root?
    case Register(n) => n < |plan| && !plan[n].Root? && User(n) !in s.source
    case Run(id) => id.n < |plan| && id in s.actions && s.actions[id].handle == Sent
    case End(id) => id.n < |plan| && id in s.actions && s.actions[id].handle == Closing
  }

  /** A second SettleRoot throws PromiseAlreadySatisfied to the user and changes nothing. */
  function Apply(plan: Plan, s: State, step: Step): Option<State>
    requires Enabled(plan, s, step)
  {
    match step
    case SettleRoot(n, o) =>
      (match SettleFuture(s, User(n), o)
       case Done(s') => Some(s')
       case AlreadySatisfied => Some(s)
       case Fault => None)
    case Register(n) => Attach(s, User(plan[n].source), User(n))
    case Run(id) =>
      // AsyncBase::Async reads the resolver, runs the callback, then asks libuv to close the handle
      if !s.actions[id].data || s.actions[id].resolver.None? then None else
      (match Execute(plan, s, id, s.actions[id].resolver.value)
       case None => None
       case Some(s') =>
         if id !in s'.actions then None else
         Some(s'.(actions := s'.actions[id := s'.actions[id].(handle := Closing)], log := s'.log + [Executed(id)])))
    case End(id) =>
      (match Close(s.actions[id])
       case None => None
       case Some(a) => Some(s.(actions := s.actions[id := a], log := s.log + [Ended(id)])))
  }

  datatype Result = Reached(state: State) | Faulted | NotEnabled

  /** A whole run. */
  function RunFrom(plan: Plan, s: State, steps: seq<Step>): Result
    decreases |steps|
  {
    if steps == [] then Reached(s)
    else if !Enabled(plan, s, steps[0]) then NotEnabled
    else
      match Apply(plan, s, steps[0])
      case None => Faulted
      case Some(s') => RunFrom(plan, s', steps[1..])
  }
}
