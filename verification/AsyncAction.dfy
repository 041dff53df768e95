/**
 The life of one action: a callback object that owns a libuv async handle.
 The functions say what each operation does to the action's fields; the class
 further down performs the same operations on mutable fields, as AsyncBase and
 ActionCallbackBase do, and is proved against the functions.
 `None` stands for a failed NNATIVE_ASSERT or for the exception that
 decreaseInstance throws.
 */
module AsyncAction {
  import opened Wrappers

  /** The value a future carries. Nothing depends on what it is. */
  type Value = int

  /** What the void futures carry. */
  const VOID: Value := 0

  /** The FutureError family. */
  datatype Error = Thrown(message: string) | PromiseAlreadySatisfied

  datatype Outcome = Resolved(value: Value) | Rejected(error: Error)

  /** What libuv knows about the handle: sent means ready to run, closing means
      that uv_close was called and its callback is still to come. */
  datatype Handle = Unused | Sent | Closing | Closed

  datatype Action = Action(
    resolver: Option<Outcome>,
    data: bool,
    instance: bool,
    instanceNum: nat,
    handle: Handle)

  const IDLE := Action(None, false, false, 0, Unused)

  /** The action between enqueue and the end of its handle. */
  function Busy(o: Outcome, h: Handle): Action {
    Action(Some(o), true, true, 1, h)
  }

  const SPENT := Action(None, false, false, 0, Closed)

  function Enqueue(a: Action): Option<Action> {
    if a.instance || a.data then None
    else Some(a.(instanceNum := a.instanceNum + 1, instance := true, data := true, handle := Sent))
  }

  /** resolve and reject of ActionCallbackBase. */
  function Settle(a: Action, o: Outcome): Option<Action> {
    if a.resolver.Some? then None else Enqueue(a.(resolver := Some(o)))
  }

  /** AsyncClosed, decreaseInstance and closeAsync. */
  function Close(a: Action): Option<Action> {
    if !a.data || !a.instance || a.instanceNum == 0 || a.resolver.None? then None
    else Some(Action(None, false, a.instanceNum != 1, a.instanceNum - 1, Closed))
  }

  /** The object behind an action. */
  class ActionCallback {
    var resolver: Option<Outcome>
    var data: bool
    var instance: bool
    var instanceNum: nat
    var handle: Handle

    ghost function View(): Action
      reads this
    {
      Action(resolver, data, instance, instanceNum, handle)
    }

    constructor ()
      ensures View() == IDLE
    {
      resolver, data, instance, instanceNum, handle := None, false, false, 0, Unused;
    }

    method IncreaseInstance()
      modifies this`instance, this`instanceNum
      ensures instance && instanceNum == old(instanceNum) + 1
    {
      instanceNum := instanceNum + 1;
      instance := true;
    }

    method DecreaseInstance() returns (ok: bool)
      modifies this`instance, this`instanceNum
      ensures ok == (old(instanceNum) != 0)
      ensures ok ==> instanceNum == old(instanceNum) - 1 && instance == (old(instance) && instanceNum != 0)
      ensures !ok ==> instanceNum == old(instanceNum) && instance == old(instance)
    {
      if instanceNum == 0 {
        return false;
      }
      instanceNum := instanceNum - 1;
      if instanceNum == 0 {
        instance := false;
      }
      ok := true;
    }

    /** enqueue, when uv_async_init and uv_async_send succeed. */
    method EnqueueHandle() returns (ok: bool)
      modifies this
      ensures ok == Enqueue(old(View())).Some?
      ensures View() == if ok then Enqueue(old(View())).value else old(View())
    {
      if instance || data {
        return false;
      }
      IncreaseInstance();
      data := true;
      handle := Sent;
      ok := true;
    }

    /** resolve and reject: the outcome decides which resolver is stored. */
    method SettleWith(o: Outcome) returns (ok: bool)
      modifies this
      ensures ok == Settle(old(View()), o).Some?
      ensures ok ==> View() == Settle(old(View()), o).value
    {
      if resolver.Some? {
        return false;
      }
      resolver := Some(o);
      ok := EnqueueHandle();
    }

    method AsyncClosed() returns (ok: bool)
      modifies this
      ensures ok == Close(old(View())).Some?
      ensures ok ==> View() == Close(old(View())).value
    {
      if !data {
        return false;
      }
      data := false;
      if !instance {
        return false;
      }
      ok := DecreaseInstance();
      if !ok {
        return;
      }
      handle := Closed;
      ok := resolver.Some?;
      resolver := None;
    }
  }

  /** One life of an action: settling an idle action makes it busy, closing a busy one spends it. */
  lemma OneLife(o: Outcome)
    ensures Settle(IDLE, o) == Some(Busy(o, Sent))
    ensures Close(Busy(o, Closing)) == Some(SPENT)
  {
  }

  /** FutureShared: settled once, then it hands its outcome to every registered action in order. */
  class FutureShared {
    var resolver: Option<Outcome>
    var actions: seq<ActionCallback>

    ghost predicate Distinct()
      reads this
    {
      forall i, j :: 0 <= i < j < |actions| ==> actions[i] != actions[j]
    }

    ghost predicate AllIdle()
      reads this, actions
    {
      forall a :: a in actions ==> a.View() == IDLE
    }

    constructor ()
      ensures resolver == None && actions == []
    {
      resolver, actions := None, [];
    }

    /**
     resolve and reject. `thrown` is the PromiseAlreadySatisfied exception. When the
     future was pending, its outcome is fixed and every registered action becomes
     busy with it; nothing runs yet, since no handle is past Sent.
     */
    method SettleWith(o: Outcome) returns (thrown: bool)
      requires Distinct()
      requires resolver == None ==> AllIdle()
      modifies this`resolver, if resolver == None then actions else []
      ensures thrown == old(resolver.Some?)
      ensures actions == old(actions)
      ensures thrown ==> resolver == old(resolver)
      ensures !thrown ==> resolver == Some(o)
      ensures !thrown ==> forall a :: a in actions ==> a.View() == Busy(o, Sent)
    {
      if resolver.Some? {
        return true;
      }
      resolver := Some(o);
      var i := 0;
      while i < |actions|
        invariant 0 <= i <= |actions|
        invariant forall k :: 0 <= k < i ==> actions[k].View() == Busy(o, Sent)
        invariant forall k :: i <= k < |actions| ==> actions[k].View() == IDLE
        invariant actions == old(actions) && resolver == Some(o)
        modifies actions
      {
        OneLife(o);
        var ok := actions[i].SettleWith(o);
        i := i + 1;
      }
      thrown := false;
    }

    /** then, error and finally on the loop thread: a late registration is enqueued at once. */
    method Register(a: ActionCallback)
      requires Distinct() && a !in actions && a.View() == IDLE
      modifies this`actions, a
      ensures actions == old(actions) + [a] && Distinct()
      ensures a.View() == match resolver { case None => IDLE case Some(o) => Busy(o, Sent) }
    {
      actions := actions + [a];
      if resolver.Some? {
        OneLife(resolver.value);
        var ok := a.SettleWith(resolver.value);
      }
    }
  }
}
