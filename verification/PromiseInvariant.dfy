/**
 What every step of the promise machine keeps. `Core` is about handles and
 registrations and holds even in the middle of a callback; `Settled` ties every
 derived future to the action that settles it and holds between steps.
 */
module PromiseInvariant {
  import opened Wrappers
  import opened AsyncAction
  import opened PromiseMachine

  type Futures = map<Id, Future>
  type Source = map<Id, Id>

  /** The outcome of a future, if it is settled. */
  function Out(s: State, id: Id): Option<Outcome> {
    if id in s.futures then s.futures[id].resolver else None
  }

  /** The outcome of the future that an action waits for. */
  function Input(futures: Futures, source: Source, id: Id): Option<Outcome> {
    if id in source && source[id] in futures then futures[source[id]].resolver else None
  }

  /** The callback of an action has been called. */
  predicate Ran(s: State, id: Id) {
    id in s.actions && (s.actions[id].handle == Closing || s.actions[id].handle == Closed)
  }

  /** The handle of an action is closed. */
  predicate Spent(s: State, id: Id) {
    id in s.actions && s.actions[id].handle == Closed
  }

  // ---------- the handle invariant ----------

  /** An action is idle until its future is settled, then busy with that outcome, then spent. */
  ghost predicate Phase(a: Action, input: Option<Outcome>) {
    match input
    case None => a == IDLE
    case Some(o) => a == Busy(o, Sent) || a == Busy(o, Closing) || a == SPENT
  }

  ghost predicate Phases(actions: map<Id, Action>, futures: Futures, source: Source) {
    forall x :: x in actions ==> Phase(actions[x], Input(futures, source, x))
  }

  ghost predicate NoRepeats(ids: seq<Id>) {
    forall i, j :: 0 <= i < j < |ids| ==> ids[i] != ids[j]
  }

  /** `ids` are the actions registered on `f`, each once. */
  ghost predicate Lists(ids: seq<Id>, f: Id, source: Source) {
    && NoRepeats(ids)
    && forall x :: x in ids <==> x in source && source[x] == f
  }

  ghost predicate Registered(futures: Futures, source: Source) {
    && (forall x :: x in source ==> source[x] in futures)
    && forall f :: f in futures ==> Lists(futures[f].actions, f, source)
  }

  ghost predicate Core(plan: Plan, s: State) {
    && s.futures.Keys == s.actions.Keys && Covers(plan, s.actions.Keys)
    && s.source.Keys <= s.actions.Keys
    && Registered(s.futures, s.source)
    && Phases(s.actions, s.futures, s.source)
  }

  /** The events one action has seen, given the state of its handle. */
  function History(id: Id, a: Action, input: Option<Outcome>): seq<Event> {
    match input
    case None => []
    case Some(o) =>
      match a.handle
      case Unused => []
      case Sent => [Enqueued(id, o)]
      case Closing => [Enqueued(id, o), Executed(id)]
      case Closed => [Enqueued(id, o), Executed(id), Ended(id)]
  }

  function About(log: seq<Event>, id: Id): seq<Event> {
    if log == [] then [] else
    About(log[..|log| - 1], id) + (if log[|log| - 1].id == id then [log[|log| - 1]] else [])
  }

  ghost predicate LoggedAt(s: State, x: Id)
    requires x in s.actions
  {
    About(s.log, x) == History(x, s.actions[x], Input(s.futures, s.source, x))
  }

  ghost predicate Logged(s: State) {
    forall x :: x in s.actions ==> LoggedAt(s, x)
  }

  lemma AboutAppend(log: seq<Event>, e: Event, id: Id)
    ensures About(log + [e], id) == About(log, id) + (if e.id == id then [e] else [])
  {
    assert (log + [e])[..|log|] == log;
  }

  // ---------- settling a future ----------

  function Events(ids: seq<Id>, o: Outcome): (events: seq<Event>)
    ensures |events| == |ids|
  {
    if ids == [] then [] else Events(ids[..|ids| - 1], o) + [Enqueued(ids[|ids| - 1], o)]
  }

  ghost predicate FanOutEffect(s: State, s': State, ids: seq<Id>, o: Outcome) {
    && s'.futures == s.futures && s'.source == s.source
    && s'.actions.Keys == s.actions.Keys
    && (forall x :: x in s.actions ==> s'.actions[x] == if x in ids then Busy(o, Sent) else s.actions[x])
  }

  /** The registered actions, all idle, become busy and nothing else changes. */
  lemma {:induction false} FanOutWorks(s: State, ids: seq<Id>, o: Outcome)
    requires NoRepeats(ids) && forall x :: x in ids ==> x in s.actions && s.actions[x] == IDLE
    ensures FanOut(s, ids, o).Some? && FanOutEffect(s, FanOut(s, ids, o).value, ids, o)
    decreases |ids|
  {
    if ids != [] {
      OneLife(o);
      var s1 := SettleAction(s, ids[0], o).value;
      var rest := ids[1..];
      assert forall x :: x in rest ==> x in ids && x != ids[0];
      FanOutWorks(s1, rest, o);
      assert ids == [ids[0]] + rest;
    }
  }

  lemma EventsFront(id: Id, ids: seq<Id>, o: Outcome)
    ensures Events([id] + ids, o) == [Enqueued(id, o)] + Events(ids, o)
  {
    var all := [id] + ids;
    if ids == [] {
      assert all[..0] == [];
    } else {
      assert all[..|ids|] == [id] + ids[..|ids| - 1];
      EventsFront(id, ids[..|ids| - 1], o);
    }
  }

  /** The actions are enqueued in the order in which they were registered. */
  lemma {:induction false} FanOutOrder(s: State, ids: seq<Id>, o: Outcome)
    requires FanOut(s, ids, o).Some?
    ensures FanOut(s, ids, o).value.log == s.log + Events(ids, o)
    decreases |ids|
  {
    if ids != [] {
      FanOutOrder(SettleAction(s, ids[0], o).value, ids[1..], o);
      EventsFront(ids[0], ids[1..], o);
      assert ids == [ids[0]] + ids[1..];
    }
  }

  lemma {:induction false} AboutEvents(log: seq<Event>, ids: seq<Id>, o: Outcome, id: Id)
    requires NoRepeats(ids)
    ensures About(log + Events(ids, o), id) == About(log, id) + (if id in ids then [Enqueued(id, o)] else [])
    decreases |ids|
  {
    hide About, Events;
    if ids == [] {
      NoEvents(log, o);
    } else {
      var k := |ids| - 1;
      LastOnce(ids, id);
      AboutEvents(log, ids[..k], o, id);
      EventsBack(log, ids, o);
      AboutAppend(log + Events(ids[..k], o), Enqueued(ids[k], o), id);
    }
  }

  lemma NoEvents(log: seq<Event>, o: Outcome)
    ensures log + Events([], o) == log
  {
  }

  lemma EventsBack(log: seq<Event>, ids: seq<Id>, o: Outcome)
    requires ids != []
    ensures log + Events(ids, o) == (log + Events(ids[..|ids| - 1], o)) + [Enqueued(ids[|ids| - 1], o)]
  {
  }

  lemma LastOnce(ids: seq<Id>, id: Id)
    requires NoRepeats(ids) && ids != []
    ensures NoRepeats(ids[..|ids| - 1])
    ensures id in ids <==> id in ids[..|ids| - 1] || id == ids[|ids| - 1]
    ensures id == ids[|ids| - 1] ==> id !in ids[..|ids| - 1]
  {
    assert ids == ids[..|ids| - 1] + [ids[|ids| - 1]];
  }

  /** What settling a pending future changes, the log apart. */
  ghost predicate SettleEffect(s: State, s': State, f: Id, o: Outcome)
    requires f in s.futures
  {
    && s'.futures == s.futures[f := Future(Some(o), s.futures[f].actions)]
    && s'.source == s.source
    && s'.actions.Keys == s.actions.Keys
    && (forall x :: x in s.actions ==>
         s'.actions[x] == if x in s.source && s.source[x] == f then Busy(o, Sent) else s.actions[x])
  }

  lemma RegisteredSettle(futures: Futures, source: Source, f: Id, o: Outcome)
    requires Registered(futures, source) && f in futures
    ensures Registered(futures[f := Future(Some(o), futures[f].actions)], source)
  {
  }

  lemma SettleEffectKeepsCore(plan: Plan, s: State, s': State, f: Id, o: Outcome)
    requires Core(plan, s) && f in s.futures && Out(s, f) == None && SettleEffect(s, s', f, o)
    ensures Core(plan, s')
  {
    RegisteredSettle(s.futures, s.source, f, o);
    assert s'.futures.Keys == s.futures.Keys;
    forall x | x in s'.actions
      ensures Phase(s'.actions[x], Input(s'.futures, s'.source, x))
    {
      SettlePhase(s, s', f, o, x);
    }
  }

  lemma SettlePhase(s: State, s': State, f: Id, o: Outcome, x: Id)
    requires f in s.futures && Out(s, f) == None && SettleEffect(s, s', f, o)
    requires x in s.actions && Phase(s.actions[x], Input(s.futures, s.source, x))
    ensures Phase(s'.actions[x], Input(s'.futures, s'.source, x))
  {
  }

  lemma SettlePending(plan: Plan, s: State, f: Id, o: Outcome)
    requires Core(plan, s) && f in s.futures && Out(s, f) == None
    ensures SettleFuture(s, f, o).Done?
    ensures SettleEffect(s, SettleFuture(s, f, o).state, f, o)
    ensures Core(plan, SettleFuture(s, f, o).state)
  {
    var fut := s.futures[f];
    var s0 := s.(futures := s.futures[f := Future(Some(o), fut.actions)]);
    forall x | x in fut.actions
      ensures x in s0.actions && s0.actions[x] == IDLE
    {
      assert Phase(s.actions[x], Input(s.futures, s.source, x));
    }
    FanOutWorks(s0, fut.actions, o);
    SettleEffectKeepsCore(plan, s, SettleFuture(s, f, o).state, f, o);
  }

  lemma SettleLog(plan: Plan, s: State, f: Id, o: Outcome)
    requires Core(plan, s) && Logged(s) && f in s.futures && Out(s, f) == None
    ensures SettleFuture(s, f, o).Done?
    ensures SettleFuture(s, f, o).state.log == s.log + Events(s.futures[f].actions, o)
    ensures Logged(SettleFuture(s, f, o).state)
  {
    SettlePending(plan, s, f, o);
    var fut := s.futures[f];
    FanOutOrder(s.(futures := s.futures[f := Future(Some(o), fut.actions)]), fut.actions, o);
    var s' := SettleFuture(s, f, o).state;
    forall x | x in s'.actions
      ensures LoggedAt(s', x)
    {
      assert Phase(s.actions[x], Input(s.futures, s.source, x));
      SettleLogAt(s, s', f, o, x);
    }
  }

  lemma SettleLogAt(s: State, s': State, f: Id, o: Outcome, x: Id)
    requires f in s.futures && Out(s, f) == None && SettleEffect(s, s', f, o)
    requires Lists(s.futures[f].actions, f, s.source)
    requires s'.log == s.log + Events(s.futures[f].actions, o)
    requires x in s.actions && LoggedAt(s, x) && Phase(s.actions[x], Input(s.futures, s.source, x))
    ensures LoggedAt(s', x)
  {
    AboutEvents(s.log, s.futures[f].actions, o, x);
  }

  // ---------- registering an action ----------

  ghost predicate AttachEffect(s: State, s': State, f: Id, id: Id)
    requires f in s.futures && id in s.actions
  {
    && s'.futures == s.futures[f := Future(Out(s, f), s.futures[f].actions + [id])]
    && s'.source == s.source[id := f]
    && s'.actions == s.actions[id := if Out(s, f).None? then IDLE else Busy(Out(s, f).value, Sent)]
  }

  lemma ListsAppend(ids: seq<Id>, f: Id, source: Source, id: Id)
    requires Lists(ids, f, source) && id !in source
    ensures Lists(ids + [id], f, source[id := f])
  {
    assert id !in ids;
    forall x
      ensures x in ids + [id] <==> x in source[id := f] && source[id := f][x] == f
    {
      assert x in ids + [id] <==> x in ids || x == id;
    }
  }

  lemma ListsElsewhere(ids: seq<Id>, g: Id, source: Source, id: Id, f: Id)
    requires Lists(ids, g, source) && id !in source && f != g
    ensures Lists(ids, g, source[id := f])
  {
  }

  lemma RegisteredAttach(s: State, s': State, f: Id, id: Id)
    requires f in s.futures && id in s.actions && id !in s.source && AttachEffect(s, s', f, id)
    requires Registered(s.futures, s.source)
    ensures Registered(s'.futures, s'.source) && s'.futures.Keys == s.futures.Keys
  {
    forall g | g in s'.futures
      ensures Lists(s'.futures[g].actions, g, s'.source)
    {
      if g == f {
        ListsAppend(s.futures[f].actions, f, s.source, id);
      } else {
        ListsElsewhere(s.futures[g].actions, g, s.source, id, f);
      }
    }
  }

  lemma AttachPhases(s: State, s': State, f: Id, id: Id)
    requires f in s.futures && id in s.actions && id !in s.source && AttachEffect(s, s', f, id)
    requires Phases(s.actions, s.futures, s.source)
    ensures Phases(s'.actions, s'.futures, s'.source) && s'.actions.Keys == s.actions.Keys
  {
    forall x | x in s'.actions
      ensures Phase(s'.actions[x], Input(s'.futures, s'.source, x))
    {
      AttachPhase(s, s', f, id, x);
    }
  }

  lemma AttachEffectKeepsCore(plan: Plan, s: State, s': State, f: Id, id: Id)
    requires Core(plan, s) && f in s.futures && id in s.actions && id !in s.source && AttachEffect(s, s', f, id)
    ensures Core(plan, s')
  {
    RegisteredAttach(s, s', f, id);
    AttachPhases(s, s', f, id);
    assert s'.actions.Keys == s.actions.Keys;
  }

  lemma AttachPhase(s: State, s': State, f: Id, id: Id, x: Id)
    requires f in s.futures && id in s.actions && id !in s.source && AttachEffect(s, s', f, id)
    requires x in s.actions && Phase(s.actions[x], Input(s.futures, s.source, x))
    ensures Phase(s'.actions[x], Input(s'.futures, s'.source, x))
  {
    if x != id {
      assert Input(s'.futures, s'.source, x) == Input(s.futures, s.source, x);
    }
  }

  lemma AttachFresh(plan: Plan, s: State, f: Id, id: Id)
    requires Core(plan, s) && f in s.futures && id in s.actions && id !in s.source
    ensures Attach(s, f, id).Some?
    ensures AttachEffect(s, Attach(s, f, id).value, f, id) && s.actions[id] == IDLE
    ensures Core(plan, Attach(s, f, id).value)
  {
    assert Phase(s.actions[id], Input(s.futures, s.source, id));
    if Out(s, f).Some? {
      OneLife(Out(s, f).value);
    } else {
      assert s.actions[id := IDLE] == s.actions;
    }
    AttachEffectKeepsCore(plan, s, Attach(s, f, id).value, f, id);
  }

  lemma AttachLog(plan: Plan, s: State, f: Id, id: Id)
    requires Core(plan, s) && Logged(s) && f in s.futures && id in s.actions && id !in s.source
    ensures Attach(s, f, id).Some? && Logged(Attach(s, f, id).value)
  {
    AttachFresh(plan, s, f, id);
    AttachIsLogged(s, f, id);
    var s' := Attach(s, f, id).value;
    hide Core, LoggedAt, AttachEffect, Attach;
    forall x | x in s'.actions
      ensures LoggedAt(s', x)
    {
      AttachLogAt(s, s', f, id, x);
    }
  }

  lemma AttachIsLogged(s: State, f: Id, id: Id)
    requires f in s.futures && id in s.actions && Attach(s, f, id).Some?
    ensures var s' := Attach(s, f, id).value;
      && s'.log == s.log + (if Out(s, f).None? then [] else [Enqueued(id, Out(s, f).value)])
      && s'.actions.Keys == s.actions.Keys
  {
    NothingMore(s.log);
  }

  lemma AttachLogAt(s: State, s': State, f: Id, id: Id, x: Id)
    requires x in s.actions && f in s.futures && id in s.actions && id !in s.source && AttachEffect(s, s', f, id)
    requires s'.log == s.log + (if Out(s, f).None? then [] else [Enqueued(id, Out(s, f).value)])
    requires LoggedAt(s, x)
    ensures LoggedAt(s', x)
  {
    hide About, History, AttachEffect, LoggedAt, Out;
    AttachAbout(s, s', f, id, x);
    if x == id {
      AttachLogSelf(s, s', f, id);
    } else {
      AttachLogOther(s, s', f, id, x);
    }
  }

  lemma AttachAbout(s: State, s': State, f: Id, id: Id, x: Id)
    requires s'.log == s.log + (if Out(s, f).None? then [] else [Enqueued(id, Out(s, f).value)])
    ensures About(s'.log, x) ==
      About(s.log, x) + (if Out(s, f).Some? && x == id then [Enqueued(id, Out(s, f).value)] else [])
  {
    hide About;
    if Out(s, f).Some? {
      AboutAppend(s.log, Enqueued(id, Out(s, f).value), x);
    } else {
      NothingMore(s.log);
      NothingMore(About(s.log, x));
    }
  }

  lemma NothingMore(log: seq<Event>)
    ensures log + [] == log
  {
  }

  lemma AttachLogSelf(s: State, s': State, f: Id, id: Id)
    requires f in s.futures && id in s.actions && id !in s.source && AttachEffect(s, s', f, id)
    requires About(s'.log, id) ==
      About(s.log, id) + (if Out(s, f).Some? then [Enqueued(id, Out(s, f).value)] else [])
    requires LoggedAt(s, id)
    ensures LoggedAt(s', id)
  {
    hide About;
    assert About(s.log, id) == [];
  }

  lemma AttachLogOther(s: State, s': State, f: Id, id: Id, x: Id)
    requires x in s.actions && f in s.futures && id in s.actions && id !in s.source && AttachEffect(s, s', f, id)
    requires x != id && About(s'.log, x) == About(s.log, x) + []
    requires LoggedAt(s, x)
    ensures LoggedAt(s', x)
  {
    hide About, History;
    NothingMore(About(s.log, x));
  }

  // ---------- moving a handle on ----------

  function WithHandle(s: State, id: Id, a: Action, e: Event): State {
    s.(actions := s.actions[id := a], log := s.log + [e])
  }

  /** Moving a handle on keeps the registrations, and every other action. */
  lemma HandleKeepsCore(plan: Plan, s: State, id: Id, a: Action, e: Event)
    requires Core(plan, s) && id in s.actions && Phase(a, Input(s.futures, s.source, id))
    ensures Core(plan, WithHandle(s, id, a, e))
  {
    var s' := WithHandle(s, id, a, e);
    assert s'.actions.Keys == s.actions.Keys;
    forall x | x in s'.actions
      ensures Phase(s'.actions[x], Input(s'.futures, s'.source, x))
    {
      assert Phase(s.actions[x], Input(s.futures, s.source, x));
    }
  }

  lemma CorePhase(plan: Plan, s: State, id: Id)
    requires Core(plan, s) && id in s.actions
    ensures Phase(s.actions[id], Input(s.futures, s.source, id))
  {
    hide Phase;
  }

  /** The next phase of a busy action, and the event that it adds to the history. */
  lemma NextPhase(id: Id, a: Action, input: Option<Outcome>)
    requires Phase(a, input)
    ensures var a' := a.(handle := Closing);
      a.handle == Sent ==> Phase(a', input) && History(id, a', input) == History(id, a, input) + [Executed(id)]
    ensures a.handle == Closing ==>
      Close(a) == Some(SPENT) && Phase(SPENT, input) && History(id, SPENT, input) == History(id, a, input) + [Ended(id)]
  {
  }

  lemma MarkClosing(plan: Plan, s: State, id: Id)
    requires Core(plan, s) && id in s.actions && s.actions[id].handle == Sent
    ensures Core(plan, WithHandle(s, id, s.actions[id].(handle := Closing), Executed(id)))
    ensures Logged(s) ==> Logged(WithHandle(s, id, s.actions[id].(handle := Closing), Executed(id)))
  {
    hide *;
    CorePhase(plan, s, id);
    NextPhase(id, s.actions[id], Input(s.futures, s.source, id));
    HandleKeepsCore(plan, s, id, s.actions[id].(handle := Closing), Executed(id));
    if Logged(s) {
      HandleMoves(s, id, s.actions[id].(handle := Closing), Executed(id));
    }
  }

  lemma EndHandle(plan: Plan, s: State, id: Id)
    requires Core(plan, s) && id in s.actions && s.actions[id].handle == Closing
    ensures Close(s.actions[id]) == Some(SPENT)
    ensures Core(plan, WithHandle(s, id, SPENT, Ended(id)))
    ensures Logged(s) ==> Logged(WithHandle(s, id, SPENT, Ended(id)))
  {
    hide *;
    CorePhase(plan, s, id);
    NextPhase(id, s.actions[id], Input(s.futures, s.source, id));
    HandleKeepsCore(plan, s, id, SPENT, Ended(id));
    if Logged(s) {
      HandleMoves(s, id, SPENT, Ended(id));
    }
  }

  lemma HandleMoves(s: State, id: Id, a: Action, e: Event)
    requires Logged(s) && id in s.actions && e.id == id
    requires var input := Input(s.futures, s.source, id);
      History(id, a, input) == History(id, s.actions[id], input) + [e]
    ensures Logged(WithHandle(s, id, a, e))
  {
    hide About, History, Input;
    var s' := WithHandle(s, id, a, e);
    forall x | x in s'.actions
      ensures LoggedAt(s', x)
    {
      assert LoggedAt(s, x);
      AboutAppend(s.log, e, x);
      NothingMore(About(s.log, x));
    }
  }
}
