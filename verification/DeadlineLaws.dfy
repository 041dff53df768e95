/**
 What each event does to the lists, said of the entries and timers before and after it.
 */
module DeadlineLaws {
  import opened Wrappers
  import opened Deadlines
  import opened Selections

  /** The first list of the loop stands at j. */
  ghost predicate ListAt(reg: Registry, loop: nat, j: nat) {
    j < |reg| && reg[j].loop == loop && forall k :: 0 <= k < j ==> reg[k].loop != loop
  }

  ghost predicate NoList(reg: Registry, loop: nat) {
    forall k :: 0 <= k < |reg| ==> reg[k].loop != loop
  }

  /** Nothing but the list at j changes. */
  ghost predicate OthersStay(reg: Registry, reg': Registry, j: nat) {
    |reg'| == |reg| && forall k :: 0 <= k < |reg| && k != j ==> reg'[k] == reg[k]
  }

  lemma ListIs(reg: Registry, loop: nat, j: nat)
    requires ListAt(reg, loop, j)
    ensures IndexOf(reg, loop) == j && WithList(reg, loop) == reg
  {
    hide IndexOf;
  }

  lemma NoListIs(reg: Registry, loop: nat)
    requires NoList(reg, loop)
    ensures IndexOf(reg, loop) == |reg| && WithList(reg, loop) == reg + [LoopList(loop, [], Timer(0, 1000))]
  {
    hide IndexOf;
  }

  // ---------- adding ----------

  /**
   A new deadline goes in front of the first that is not earlier. If that is the first of
   a list that was not empty, the timer is started for the time that is left.
   */
  lemma AddInserts(reg: Registry, e: Event, j: nat) returns (i: nat)
    requires e.op.Add? && ListAt(reg, e.op.loop, j)
    ensures var l, l', end := reg[j], Step(reg, e)[j], e.now + e.op.seconds * 1000;
      && OthersStay(reg, Step(reg, e), j) && l'.loop == l.loop
      && i <= |l.entries| && l'.entries == l.entries[..i] + [Entry(e.op.connection, end)] + l.entries[i..]
      && (forall k :: 0 <= k < i ==> l.entries[k].endTime < end)
      && (i < |l.entries| ==> end <= l.entries[i].endTime)
      && l'.timer == if l.entries != [] && i == 0
           then Timer(if e.now < end then end - e.now else 1000, 1000) else l.timer
  {
    ListIs(reg, e.op.loop, j);
    AddStep(reg, e);
    hide Step, Place, IndexOf, WithList;
    i := Place(reg[j].entries, e.now + e.op.seconds * 1000);
  }

  /** The first deadline of a loop makes a list, whose timer fires at once and then every second. */
  lemma AddCreates(reg: Registry, e: Event)
    requires e.op.Add? && NoList(reg, e.op.loop)
    ensures var x := Entry(e.op.connection, e.now + e.op.seconds * 1000);
      Step(reg, e) == reg + [LoopList(e.op.loop, [x], Timer(0, 1000))]
  {
    NoListIs(reg, e.op.loop);
    AddStep(reg, e);
    hide Step, IndexOf, WithList;
    var x := Entry(e.op.connection, e.now + e.op.seconds * 1000);
    InsertFirst(e.op.loop, x, e.now);
    LastSet(reg, LoopList(e.op.loop, [], Timer(0, 1000)), LoopList(e.op.loop, [x], Timer(0, 1000)));
  }

  lemma InsertFirst(loop: nat, x: Entry, now: nat)
    ensures Insert(LoopList(loop, [], Timer(0, 1000)), x, now) == LoopList(loop, [x], Timer(0, 1000))
  {
    assert [] + [x] + [] == [x];
  }

  lemma LastSet(reg: Registry, l: LoopList, l': LoopList)
    ensures (reg + [l])[|reg| := l'] == reg + [l']
  {
  }

  // ---------- restarting ----------

  lemma {:induction false} FoundAt(es: seq<Entry>, connection: nat, alive: set<nat>, p: nat)
    requires p < |es| && es[p].connection == connection && connection in alive
    requires forall q :: 0 <= q < p ==> es[q].connection != connection
    ensures Find(es, connection, alive) == Some(p)
  {
    if p > 0 {
      FoundAt(es[1..], connection, alive, p - 1);
    }
  }

  lemma {:induction false} NotFound(es: seq<Entry>, connection: nat, alive: set<nat>)
    requires connection !in alive || forall q :: 0 <= q < |es| ==> es[q].connection != connection
    ensures Find(es, connection, alive) == None
  {
    if es != [] {
      NotFound(es[1..], connection, alive);
    }
  }

  /**
   A restart gives the connection's first entry its new deadline, and moves it in front of
   the first earlier one in the list that is not due before it. The timer is started for
   the time that is left exactly when the entry is then the first of the list.
   */
  lemma RestartMoves(reg: Registry, e: Event, j: nat, p: nat) returns (i: nat)
    requires e.op.Restart? && ListAt(reg, e.op.loop, j) && e.op.connection in e.alive
    requires p < |reg[j].entries| && reg[j].entries[p].connection == e.op.connection
    requires forall q :: 0 <= q < p ==> reg[j].entries[q].connection != e.op.connection
    ensures var l, l', end := reg[j], Step(reg, e)[j], e.now + e.op.seconds * 1000;
      && OthersStay(reg, Step(reg, e), j) && l'.loop == l.loop
      && multiset(l'.entries) == multiset(l.entries[p := Entry(e.op.connection, end)])
      && MovedTo(l.entries, p, end, i, l'.entries)
      && (i == 0 <==> p == 0 || end <= l.entries[0].endTime)
      && l'.timer == if p == 0 || end <= l.entries[0].endTime
           then Timer(if e.now < end then end - e.now else 1000, 1000) else l.timer
  {
    hide *;
    ListIs(reg, e.op.loop, j);
    RestartStep(reg, e);
    var l, end := reg[j], e.now + e.op.seconds * 1000;
    FoundAt(l.entries, e.op.connection, e.alive, p);
    i := RestartedMoves(l, e.op.connection, end, e.now, e.alive, p);
    OneSet(reg, j, Restarted(l, e.op.connection, end, e.now, e.alive));
  }

  lemma OneSet(reg: Registry, j: nat, l: LoopList)
    requires j < |reg|
    ensures OthersStay(reg, reg[j := l], j)
  {
  }

  lemma RestartedMoves(l: LoopList, connection: nat, end: nat, now: nat, alive: set<nat>, p: nat) returns (i: nat)
    requires Find(l.entries, connection, alive) == Some(p)
    ensures var l' := Restarted(l, connection, end, now, alive);
      && l'.loop == l.loop && multiset(l'.entries) == multiset(l.entries[p := Entry(connection, end)])
      && MovedTo(l.entries, p, end, i, l'.entries)
      && (i == 0 <==> p == 0 || end <= l.entries[0].endTime)
      && l'.timer == if p == 0 || end <= l.entries[0].endTime
           then Timer(if now < end then end - now else 1000, 1000) else l.timer
  {
    RestartedIs(l, connection, end, now, alive, p);
    i := MovedFirst(l.entries, p, end);
    MovedReplaces(l.entries, p, end);
    hide *;
  }

  lemma RestartedIs(l: LoopList, connection: nat, end: nat, now: nat, alive: set<nat>, p: nat)
    requires Find(l.entries, connection, alive) == Some(p)
    ensures l.entries[p].connection == connection
    ensures Restarted(l, connection, end, now, alive) ==
      LoopList(l.loop, Moved(l.entries, p, end),
               if p == 0 || end <= l.entries[0].endTime
               then Timer(if now < end then end - now else 1000, 1000) else l.timer)
  {
    hide Find, Moved, Place;
    FirstPlace(l.entries, p, Entry(connection, end));
  }

  lemma MovedFirst(es: seq<Entry>, p: nat, end: nat) returns (i: nat)
    requires p < |es|
    ensures MovedTo(es, p, end, i, Moved(es, p, end)) && (i == 0 <==> p == 0 || end <= es[0].endTime)
  {
    hide Moved;
    i := MovedAt(es, p, end);
  }

  lemma MovedReplaces(es: seq<Entry>, p: nat, endTime: nat)
    requires p < |es|
    ensures multiset(Moved(es, p, endTime)) == multiset(es[p := Entry(es[p].connection, endTime)])
  {
    hide Moved;
    var x := Entry(es[p].connection, endTime);
    MovedKeepsEntries(es, p, endTime);
    Replaced(es, p, x);
    Cancel(multiset(Moved(es, p, endTime)), multiset(es[p := x]), es[p]);
  }

  lemma Replaced(es: seq<Entry>, p: nat, x: Entry)
    requires p < |es|
    ensures multiset(es[p := x]) + multiset{es[p]} == multiset(es) + multiset{x}
  {
    assert es == es[..p] + [es[p]] + es[p + 1..];
    assert es[p := x] == es[..p] + [x] + es[p + 1..];
  }

  lemma Cancel(a: multiset<Entry>, b: multiset<Entry>, x: Entry)
    requires a + multiset{x} == b + multiset{x}
    ensures a == b
  {
    forall y
      ensures a[y] == b[y]
    {
      assert (a + multiset{x})[y] == (b + multiset{x})[y];
    }
  }

  /** The changed entry is the first place that is not earlier, unless one before it is. */
  lemma FirstPlace(es: seq<Entry>, p: nat, x: Entry)
    requires p < |es|
    ensures Place(es[p := x], x.endTime) == 0 <==> p == 0 || x.endTime <= es[0].endTime
  {
  }

  /** A connection that is gone, or has no entry, is not restarted; a loop without a list gets an empty one. */
  lemma RestartIgnores(reg: Registry, e: Event, j: nat)
    requires e.op.Restart?
    requires ListAt(reg, e.op.loop, j)
    requires e.op.connection !in e.alive ||
      forall q :: 0 <= q < |reg[j].entries| ==> reg[j].entries[q].connection != e.op.connection
    ensures Step(reg, e) == reg
  {
    ListIs(reg, e.op.loop, j);
    RestartStep(reg, e);
    hide Step, IndexOf, WithList, Find;
    NotFound(reg[j].entries, e.op.connection, e.alive);
    assert reg[j := reg[j]] == reg;
  }

  lemma RestartCreates(reg: Registry, e: Event)
    requires e.op.Restart? && NoList(reg, e.op.loop)
    ensures Step(reg, e) == reg + [LoopList(e.op.loop, [], Timer(0, 1000))]
  {
    NoListIs(reg, e.op.loop);
    RestartStep(reg, e);
    hide Step, IndexOf, WithList;
    var l := LoopList(e.op.loop, [], Timer(0, 1000));
    LastSet(reg, l, l);
  }

  // ---------- removing ----------

  /** The entry survives the removal of a connection: it is another's, and that one still exists. */
  predicate Survives(x: Entry, connection: nat, alive: set<nat>) {
    x.connection in alive && x.connection != connection
  }

  lemma {:induction false} WithoutKeeps(es: seq<Entry>, connection: nat, alive: set<nat>) returns (pos: seq<nat>)
    ensures Picked(es, x => Survives(x, connection, alive), Without(es, connection, alive), pos)
    decreases |es|
  {
    var keep := x => Survives(x, connection, alive);
    if es == [] {
      pos := [];
    } else {
      var rest := WithoutKeeps(es[1..], connection, alive);
      WithoutFirst(es, connection, alive);
      hide Without, Picked;
      if keep(es[0]) {
        pos := [0] + Shifted(rest);
        PickFirst(es, keep, Without(es[1..], connection, alive), rest);
      } else {
        pos := Shifted(rest);
        PickLater(es, keep, Without(es[1..], connection, alive), rest);
      }
    }
  }

  lemma WithoutFirst(es: seq<Entry>, connection: nat, alive: set<nat>)
    requires es != []
    ensures Without(es, connection, alive) ==
      (if Survives(es[0], connection, alive) then [es[0]] else []) + Without(es[1..], connection, alive)
    ensures !Survives(es[0], connection, alive) ==>
      Without(es, connection, alive) == Without(es[1..], connection, alive)
  {
  }

  /** A list from which nothing is left is dropped; otherwise the survivors stay, and the timer runs on. */
  lemma RemoveKeeps(reg: Registry, e: Event, j: nat) returns (left: seq<Entry>, pos: seq<nat>)
    requires e.op.Remove? && ListAt(reg, e.op.loop, j)
    ensures Picked(reg[j].entries, x => Survives(x, e.op.connection, e.alive), left, pos)
    ensures Step(reg, e) ==
      if left == [] then reg[..j] + reg[j + 1..] else reg[j := LoopList(reg[j].loop, left, reg[j].timer)]
  {
    ListIs(reg, e.op.loop, j);
    RemoveStep(reg, e);
    hide Step, IndexOf, WithList, Without, Picked;
    left := Without(reg[j].entries, e.op.connection, e.alive);
    pos := WithoutKeeps(reg[j].entries, e.op.connection, e.alive);
  }

  lemma RemoveIgnores(reg: Registry, e: Event)
    requires e.op.Remove? && NoList(reg, e.op.loop)
    ensures Step(reg, e) == reg
  {
    NoListIs(reg, e.op.loop);
    RemoveStep(reg, e);
    hide Step, IndexOf, WithList;
    var l := LoopList(e.op.loop, [], Timer(0, 1000));
    assert (reg + [l])[..|reg|] + (reg + [l])[|reg| + 1..] == reg;
  }

  // ---------- sweeping ----------

  lemma {:induction false} SweptFrom(es: seq<Entry>, now: nat, alive: set<nat>) returns (n: nat)
    ensures n <= |es| && Swept(es, now, alive) == es[n..]
    ensures forall k :: 0 <= k < n ==> es[k].connection !in alive || es[k].endTime <= now
    ensures n < |es| ==> es[n].connection in alive && now < es[n].endTime
    decreases |es|
  {
    if es == [] || !Over(es[0], now, alive) {
      n := 0;
    } else {
      n := SweptFrom(es[1..], now, alive);
      n := n + 1;
      assert forall k :: 1 <= k < n ==> es[k] == es[1..][k - 1];
    }
  }

  /**
   A sweep drops the entries in front of the first that is alive and due later, in any
   list, sorted or not. A list from which nothing is left is dropped; otherwise the timer
   repeats after the time that is left to the first entry.
   */
  lemma SweepDrops(reg: Registry, e: Event, j: nat) returns (n: nat)
    requires e.op.Sweep? && ListAt(reg, e.op.loop, j)
    ensures var l := reg[j];
      && n <= |l.entries|
      && (forall k :: 0 <= k < n ==> l.entries[k].connection !in e.alive || l.entries[k].endTime <= e.now)
      && (n < |l.entries| ==> l.entries[n].connection in e.alive && e.now < l.entries[n].endTime)
      && Step(reg, e) ==
           if n == |l.entries| then reg[..j] + reg[j + 1..]
           else reg[j := LoopList(l.loop, l.entries[n..], Timer(l.timer.timeout, l.entries[n].endTime - e.now))]
  {
    ListIs(reg, e.op.loop, j);
    SweepStep(reg, e);
    hide Step, IndexOf, WithList, Swept;
    n := SweptFrom(reg[j].entries, e.now, e.alive);
  }

  lemma SweepIgnores(reg: Registry, e: Event)
    requires e.op.Sweep? && NoList(reg, e.op.loop)
    ensures Step(reg, e) == reg
  {
    NoListIs(reg, e.op.loop);
    SweepStep(reg, e);
    hide Step, IndexOf, WithList;
  }
}
