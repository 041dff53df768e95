/** The lists as objects that are updated in place, each method tied to a step of the specification. */
module DeadlineLists {
  import opened Wrappers
  import opened Deadlines

  class LoopTimeoutEntries {
    const loop: nat
    var connectionEntries: seq<Entry>
    var timer: Timer

    function Value(): LoopList
      reads this
    {
      LoopList(loop, connectionEntries, timer)
    }

    constructor (loop: nat)
      ensures this.loop == loop && Value() == LoopList(loop, [], Timer(0, 1000))
    {
      this.loop := loop;
      connectionEntries := [];
      timer := Timer(0, 1000);
    }

    method InsertConnection(entry: Entry, now: nat)
      modifies this
      ensures Value() == Insert(old(Value()), entry, now)
    {
      var it := 0;
      ghost var place := Place(connectionEntries, entry.endTime);
      while it < |connectionEntries| && entry.endTime > connectionEntries[it].endTime
        invariant 0 <= it <= place
      {
        it := it + 1;
      }
      if connectionEntries != [] && it == 0 {
        timer := Timer(Delay(now, entry.endTime), 1000);
      }
      connectionEntries := InsertAt(connectionEntries, it, entry);
    }

    /** The in-place change, the insertion of a copy, and the erasure of the changed entry. */
    method RestartTime(connection: nat, endTime: nat, now: nat, alive: set<nat>)
      modifies this
      ensures Value() == Restarted(old(Value()), connection, endTime, now, alive)
    {
      var found := Find(connectionEntries, connection, alive);
      if found.Some? {
        var it := found.value;
        var entry := Entry(connection, endTime);
        connectionEntries := connectionEntries[it := entry];
        var i := Place(connectionEntries, endTime);
        InsertConnection(entry, now);
        var q := if i <= it then it + 1 else it;
        connectionEntries := connectionEntries[..q] + connectionEntries[q + 1..];
      }
    }

    method RemoveConnection(connection: nat, alive: set<nat>)
      modifies this
      ensures Value() == old(Value()).(entries := Without(old(connectionEntries), connection, alive))
    {
      connectionEntries := Without(connectionEntries, connection, alive);
    }

    /** The timer's sweep; the caller drops the list when it becomes empty. */
    method OnTimer(now: nat, alive: set<nat>)
      modifies this
      ensures Value() == SweptList(old(Value()), now, alive)
    {
      ghost var before := connectionEntries;
      while connectionEntries != [] && Over(connectionEntries[0], now, alive)
        invariant Swept(connectionEntries, now, alive) == Swept(before, now, alive)
        invariant timer == old(timer)
        decreases |connectionEntries|
      {
        connectionEntries := connectionEntries[1..];
      }
      if connectionEntries != [] {
        timer := timer.(repeat := Delay(now, connectionEntries[0].endTime));
      }
    }
  }

  function ViewOf(lists: seq<LoopTimeoutEntries>): (reg: Registry)
    reads lists
    ensures |reg| == |lists| && forall i :: 0 <= i < |lists| ==> reg[i] == lists[i].Value()
  {
    if lists == [] then [] else [lists[0].Value()] + ViewOf(lists[1..])
  }

  lemma ReplaceSet(reg: Registry, i: nat, l: LoopList)
    requires i < |reg|
    ensures Replace(reg[i := l], i, l) == Replace(reg, i, l)
  {
  }

  lemma SetSame(reg: Registry, i: nat)
    requires i < |reg|
    ensures reg[i := reg[i]] == reg
  {
  }

  lemma DroppedAt<T>(s: seq<T>, i: nat, j: nat)
    requires i < |s| && j < |s| - 1
    ensures (s[..i] + s[i + 1..])[j] == s[if j < i then j else j + 1]
  {
  }

  lemma OneDropped(lists: seq<LoopTimeoutEntries>, i: nat)
    requires i < |lists|
    ensures ViewOf(lists[..i] + lists[i + 1..]) == ViewOf(lists)[..i] + ViewOf(lists)[i + 1..]
  {
    hide ViewOf;
    var left := lists[..i] + lists[i + 1..];
    forall j | 0 <= j < |left|
      ensures ViewOf(left)[j] == ViewOf(lists)[if j < i then j else j + 1]
    {
      DroppedAt(lists, i, j);
    }
  }

  lemma OneChanged(lists: seq<LoopTimeoutEntries>, reg: Registry, i: nat)
    requires i < |lists| == |reg| && forall j :: 0 <= j < |reg| && j != i ==> reg[j] == lists[j].Value()
    ensures ViewOf(lists) == reg[i := lists[i].Value()]
  {
  }

  /** The static list. */
  class TimeoutLists {
    var lists: seq<LoopTimeoutEntries>

    ghost predicate Valid()
      reads this
    {
      forall i, j :: 0 <= i < j < |lists| ==> lists[i].loop != lists[j].loop
    }

    function View(): Registry
      reads this, lists
    {
      ViewOf(lists)
    }

    constructor ()
      ensures Valid() && View() == []
    {
      lists := [];
    }

    method FindOrCreateEntry(loop: nat) returns (i: nat)
      requires Valid()
      modifies this
      ensures Valid() && i == IndexOf(old(View()), loop) && i < |lists| && lists[i].loop == loop
      ensures View() == WithList(old(View()), loop)
      ensures lists[i] in old(lists) || fresh(lists[i])
    {
      i := 0;
      ghost var reg := View();
      while i < |lists|
        invariant 0 <= i <= IndexOf(reg, loop)
      {
        if lists[i].loop == loop {
          return;
        }
        i := i + 1;
      }
      var newLoopEntry := new LoopTimeoutEntries(loop);
      lists := lists + [newLoopEntry];
    }

    method AddConnection(loop: nat, connection: nat, seconds: nat, now: nat, ghost alive: set<nat>)
      requires Valid()
      modifies this, lists
      ensures Valid() && View() == Step(old(View()), Event(Add(loop, connection, seconds), now, alive))
    {
      hide Insert, Place, Step, WithList, IndexOf, ViewOf;
      AddStep(View(), Event(Add(loop, connection, seconds), now, alive));
      var i := FindOrCreateEntry(loop);
      ghost var reg := View();
      lists[i].InsertConnection(Entry(connection, now + seconds * 1000), now);
      OneChanged(lists, reg, i);
    }

    method RestartTime(loop: nat, connection: nat, seconds: nat, now: nat, alive: set<nat>)
      requires Valid()
      modifies this, lists
      ensures Valid() && View() == Step(old(View()), Event(Restart(loop, connection, seconds), now, alive))
    {
      hide Restarted, Step, WithList, IndexOf, ViewOf;
      RestartStep(View(), Event(Restart(loop, connection, seconds), now, alive));
      var i := FindOrCreateEntry(loop);
      ghost var reg := View();
      lists[i].RestartTime(connection, now + seconds * 1000, now, alive);
      OneChanged(lists, reg, i);
    }

    method RemoveConnection(loop: nat, connection: nat, ghost now: nat, alive: set<nat>)
      requires Valid()
      modifies this, lists
      ensures Valid() && View() == Step(old(View()), Event(Remove(loop, connection), now, alive))
    {
      hide Without, Replace, Step, WithList, IndexOf;
      RemoveStep(View(), Event(Remove(loop, connection), now, alive));
      var i := FindOrCreateEntry(loop);
      ghost var reg := View();
      lists[i].RemoveConnection(connection, alive);
      OneChanged(lists, reg, i);
      DropIfEmpty(i);
      ReplaceSet(reg, i, reg[i].(entries := Without(reg[i].entries, connection, alive)));
    }

    /** The timer of a loop fires; a list that has been dropped has no timer. */
    method OnTimer(loop: nat, now: nat, alive: set<nat>)
      requires Valid()
      modifies this, lists
      ensures Valid() && View() == Step(old(View()), Event(Sweep(loop), now, alive))
    {
      hide SweptList, Replace, Step;
      SweepStep(View(), Event(Sweep(loop), now, alive));
      if i :| 0 <= i < |lists| && lists[i].loop == loop {
        ghost var reg := View();
        lists[i].OnTimer(now, alive);
        OneChanged(lists, reg, i);
        DropIfEmpty(i);
        ReplaceSet(reg, i, SweptList(reg[i], now, alive));
      }
    }

    method DropIfEmpty(i: nat)
      requires Valid() && i < |lists|
      modifies this
      ensures Valid() && View() == Replace(old(View()), i, old(View())[i])
      ensures forall l :: l in lists ==> l in old(lists)
    {
      hide ViewOf;
      if lists[i].connectionEntries == [] {
        OneDropped(lists, i);
        lists := lists[..i] + lists[i + 1..];
      } else {
        SetSame(View(), i);
      }
    }
  }
}
