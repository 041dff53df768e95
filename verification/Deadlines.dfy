/**
 Connection timeouts: for each event loop a list of deadlines, kept in order, that a
 timer sweeps from the front. Times are in milliseconds.
 */
module Deadlines {
  import opened Wrappers

  datatype Entry = Entry(connection: nat, endTime: nat)

  /** How the timer was last started, and its repeat. */
  datatype Timer = Timer(timeout: nat, repeat: nat)

  datatype LoopList = LoopList(loop: nat, entries: seq<Entry>, timer: Timer)

  /** The static list of lists. */
  type Registry = seq<LoopList>

  ghost predicate Sorted(es: seq<Entry>) {
    forall i, j :: 0 <= i < j < |es| ==> es[i].endTime <= es[j].endTime
  }

  // ---------- one list ----------

  /** Where the scan for a place stops: at the first deadline that is not earlier. */
  function Place(es: seq<Entry>, endTime: nat): (i: nat)
    ensures i <= |es| && (forall j :: 0 <= j < i ==> es[j].endTime < endTime) && (i < |es| ==> endTime <= es[i].endTime)
  {
    if es == [] || endTime <= es[0].endTime then 0 else 1 + Place(es[1..], endTime)
  }

  function InsertAt(es: seq<Entry>, i: nat, e: Entry): seq<Entry>
    requires i <= |es|
  {
    es[..i] + [e] + es[i..]
  }

  function Delay(now: nat, endTime: nat): (d: nat)
    ensures d > 0
  {
    if now < endTime then endTime - now else 1000
  }

  function Insert(l: LoopList, e: Entry, now: nat): LoopList {
    var i := Place(l.entries, e.endTime);
    LoopList(l.loop, InsertAt(l.entries, i, e),
             if l.entries != [] && i == 0 then Timer(Delay(now, e.endTime), 1000) else l.timer)
  }

  /** The entries of other connections that still exist. */
  function Without(es: seq<Entry>, connection: nat, alive: set<nat>): seq<Entry> {
    if es == [] then []
    else
      (if es[0].connection !in alive || es[0].connection == connection then [] else [es[0]])
      + Without(es[1..], connection, alive)
  }

  predicate Over(e: Entry, now: nat, alive: set<nat>) {
    e.connection !in alive || now >= e.endTime
  }

  /** Entries are dropped from the front, up to the first that is not over. */
  function Swept(es: seq<Entry>, now: nat, alive: set<nat>): seq<Entry> {
    if es == [] || !Over(es[0], now, alive) then es else Swept(es[1..], now, alive)
  }

  /** The first entry of a connection that still exists. */
  function Find(es: seq<Entry>, connection: nat, alive: set<nat>): (i: Option<nat>)
    ensures i.Some? ==> i.value < |es| && es[i.value].connection == connection
  {
    if es == [] then None
    else if es[0].connection in alive && es[0].connection == connection then Some(0)
    else match Find(es[1..], connection, alive) case None => None case Some(i) => Some(i + 1)
  }

  /** The deadline is changed in place, a copy is inserted, and the changed entry is erased. */
  function Moved(es: seq<Entry>, p: nat, endTime: nat): seq<Entry>
    requires p < |es|
  {
    var e := Entry(es[p].connection, endTime);
    var changed := es[p := e];
    var i := Place(changed, endTime);
    var inserted := InsertAt(changed, i, e);
    var q := if i <= p then p + 1 else p;
    inserted[..q] + inserted[q + 1..]
  }

  lemma InsertSorted(es: seq<Entry>, e: Entry)
    requires Sorted(es)
    ensures Sorted(InsertAt(es, Place(es, e.endTime), e))
  {
  }

  lemma InsertAddsOne(es: seq<Entry>, i: nat, e: Entry)
    requires i <= |es|
    ensures multiset(InsertAt(es, i, e)) == multiset(es) + multiset{e}
  {
    assert es == es[..i] + es[i..];
  }

  lemma {:induction false} WithoutSorted(es: seq<Entry>, connection: nat, alive: set<nat>)
    requires Sorted(es)
    ensures Sorted(Without(es, connection, alive))
    ensures forall e :: e in Without(es, connection, alive) <==>
      (e in es && e.connection in alive && e.connection != connection)
  {
    if es != [] {
      WithoutSorted(es[1..], connection, alive);
      var r := Without(es[1..], connection, alive);
      assert es == [es[0]] + es[1..];
      forall i | 0 <= i < |r|
        ensures es[0].endTime <= r[i].endTime
      {
        assert r[i] in es[1..];
      }
    }
  }

  /** A sweep of a sorted list leaves exactly the entries from the first living one on that is due later. */
  lemma {:induction false} SweepSorted(es: seq<Entry>, now: nat, alive: set<nat>)
    requires Sorted(es)
    ensures var r := Swept(es, now, alive);
      Sorted(r) && |r| <= |es| && r == es[|es| - |r|..]
      && (forall i :: 0 <= i < |r| ==> now < r[i].endTime)
      && (forall i :: 0 <= i < |es| - |r| ==> Over(es[i], now, alive))
      && (r != [] ==> r[0].connection in alive)
  {
    if es != [] && Over(es[0], now, alive) {
      SweepSorted(es[1..], now, alive);
      assert forall i :: 1 <= i < |es| ==> es[i] == es[1..][i - 1];
    }
  }

  // ---------- restarting a deadline ----------

  lemma MovedIs(es: seq<Entry>, p: nat, endTime: nat)
    requires p < |es|
    ensures var e := Entry(es[p].connection, endTime); var i := Place(es[p := e], endTime);
      i <= p && Moved(es, p, endTime) == es[..i] + [e] + es[i..p] + es[p + 1..]
  {
    var e := Entry(es[p].connection, endTime);
    var changed := es[p := e];
    var i := Place(changed, endTime);
    assert i <= p by { assert changed[p] == e; }
    var inserted := InsertAt(changed, i, e);
    assert inserted[..p + 1] == es[..i] + [e] + es[i..p];
    assert inserted[p + 2..] == es[p + 1..];
  }

  /** Exactly one entry changes, and only its deadline. */
  lemma MovedKeepsEntries(es: seq<Entry>, p: nat, endTime: nat)
    requires p < |es|
    ensures multiset(Moved(es, p, endTime)) + multiset{es[p]} ==
      multiset(es) + multiset{Entry(es[p].connection, endTime)}
  {
    hide Moved, Place;
    MovedIs(es, p, endTime);
    var e := Entry(es[p].connection, endTime);
    OneExchanged(es, p, Place(es[p := e], endTime), e);
  }

  lemma OneExchanged(es: seq<Entry>, p: nat, i: nat, e: Entry)
    requires i <= p < |es|
    ensures multiset(es[..i] + [e] + es[i..p] + es[p + 1..]) + multiset{es[p]} == multiset(es) + multiset{e}
  {
    assert es == es[..i] + es[i..p] + [es[p]] + es[p + 1..];
  }

  /** The entry moves forward to place i; those it passes move back by one. */
  ghost predicate MovedTo(es: seq<Entry>, p: nat, endTime: nat, i: nat, r: seq<Entry>) {
    && i <= p < |es| == |r| && r[i].endTime == endTime
    && (forall k :: 0 <= k < i ==> r[k] == es[k] && es[k].endTime < endTime)
    && (forall k :: i < k <= p ==> r[k] == es[k - 1])
    && (forall k :: p < k < |es| ==> r[k] == es[k])
    && (i < p ==> endTime <= es[i].endTime)
  }

  lemma MovedAt(es: seq<Entry>, p: nat, endTime: nat) returns (i: nat)
    requires p < |es|
    ensures MovedTo(es, p, endTime, i, Moved(es, p, endTime))
  {
    MovedIs(es, p, endTime);
    var e := Entry(es[p].connection, endTime);
    i := Place(es[p := e], endTime);
    hide Moved, Place;
    PassedBy(es, es[p := e], p, e, i);
  }

  lemma PassedBy(es: seq<Entry>, changed: seq<Entry>, p: nat, e: Entry, i: nat)
    requires i <= p < |es| && changed == es[p := e]
    requires forall k :: 0 <= k < i ==> changed[k].endTime < e.endTime
    requires e.endTime <= changed[i].endTime
    ensures MovedTo(es, p, e.endTime, i, es[..i] + [e] + es[i..p] + es[p + 1..])
  {
    assert forall k :: 0 <= k < i ==> changed[k] == es[k];
    assert i < p ==> changed[i] == es[i];
  }

  lemma MovedStaysSorted(es: seq<Entry>, p: nat, endTime: nat, i: nat, r: seq<Entry>)
    requires Sorted(es) && MovedTo(es, p, endTime, i, r) && (p + 1 == |es| || endTime <= es[p + 1].endTime)
    ensures Sorted(r)
  {
    forall j, k | 0 <= j < k < |r|
      ensures r[j].endTime <= r[k].endTime
    {
      var a := if j < i then es[j].endTime else if j ==
        i then endTime else if j <= p then es[j - 1].endTime else es[j].endTime;
      var b := if k < i then es[k].endTime else if k ==
        i then endTime else if k <= p then es[k - 1].endTime else es[k].endTime;
      assert r[j].endTime == a && r[k].endTime == b;
      if j == i && k <= p {
        assert es[i].endTime <= es[k - 1].endTime;
      }
      if j == i && k > p {
        assert es[p + 1].endTime <= es[k].endTime;
      }
    }
  }

  /** The order survives exactly when the new deadline is not later than that of the next entry. */
  lemma MovedSorted(es: seq<Entry>, p: nat, endTime: nat)
    requires Sorted(es) && p < |es|
    ensures Sorted(Moved(es, p, endTime)) <==> p + 1 == |es| || endTime <= es[p + 1].endTime
  {
    hide Moved;
    var i := MovedAt(es, p, endTime);
    if p + 1 == |es| || endTime <= es[p + 1].endTime {
      MovedStaysSorted(es, p, endTime, i, Moved(es, p, endTime));
    }
  }

  /** A deadline that moves back hides the entries behind it from the sweep. */
  lemma RestartLosesOrder()
    ensures var es := [Entry(1, 10), Entry(2, 20)];
      Sorted(es) && Moved(es, 0, 30) == [Entry(1, 30), Entry(2, 20)]
      && Swept(Moved(es, 0, 30), 25, {1, 2}) == [Entry(1, 30), Entry(2, 20)]
  {
    var es := [Entry(1, 10), Entry(2, 20)];
    MovedIs(es, 0, 30);
    assert es[..0] + [Entry(1, 30)] + es[0..0] + es[1..] == [Entry(1, 30), Entry(2, 20)];
  }

  // ---------- the list of lists ----------

  function IndexOf(reg: Registry, loop: nat): (i: nat)
    ensures i <= |reg| && (forall j :: 0 <= j < i ==> reg[j].loop != loop) && (i < |reg| ==> reg[i].loop == loop)
  {
    if reg == [] || reg[0].loop == loop then 0 else 1 + IndexOf(reg[1..], loop)
  }

  /** A loop that has no list gets one; its timer is started at once, to fire every second. */
  function WithList(reg: Registry, loop: nat): (r: Registry)
    ensures IndexOf(reg, loop) < |r|
  {
    if IndexOf(reg, loop) < |reg| then reg else reg + [LoopList(loop, [], Timer(0, 1000))]
  }

  datatype Op =
    | Add(loop: nat, connection: nat, seconds: nat)
    | Remove(loop: nat, connection: nat)
    | Sweep(loop: nat)
    | Restart(loop: nat, connection: nat, seconds: nat)

  /** An operation at a time, with the connections that then exist. */
  datatype Event = Event(op: Op, now: nat, alive: set<nat>)

  /** Put a list back in its place; an empty one is closed and dropped. */
  function Replace(reg: Registry, i: nat, l: LoopList): Registry
    requires i < |reg|
  {
    if l.entries == [] then reg[..i] + reg[i + 1..] else reg[i := l]
  }

  function Restarted(l: LoopList, connection: nat, endTime: nat, now: nat, alive: set<nat>): LoopList {
    match Find(l.entries, connection, alive)
    case None => l
    case Some(p) =>
      var atFront := Place(l.entries[p := Entry(connection, endTime)], endTime) == 0;
      LoopList(l.loop, Moved(l.entries, p, endTime), if atFront then Timer(Delay(now, endTime), 1000) else l.timer)
  }

  function SweptList(l: LoopList, now: nat, alive: set<nat>): LoopList {
    var es := Swept(l.entries, now, alive);
    LoopList(l.loop, es, if es == [] then l.timer else l.timer.(repeat := Delay(now, es[0].endTime)))
  }

  function Step(reg: Registry, e: Event): Registry {
    var loop := e.op.loop;
    var i, r := IndexOf(reg, loop), WithList(reg, loop);
    match e.op
    case Add(_, connection, seconds) => r[i := Insert(r[i], Entry(connection, e.now + seconds * 1000), e.now)]
    case Remove(_, connection) => Replace(r, i, r[i].(entries := Without(r[i].entries, connection, e.alive)))
    case Sweep(_) => if i < |reg| then Replace(reg, i, SweptList(reg[i], e.now, e.alive)) else reg
    case Restart(_, connection, seconds) => r[i := Restarted(r[i], connection, e.now + seconds * 1000, e.now, e.alive)]
  }

  lemma AddStep(reg: Registry, e: Event)
    requires e.op.Add?
    ensures var i, r := IndexOf(reg, e.op.loop), WithList(reg, e.op.loop);
      Step(reg, e) == r[i := Insert(r[i], Entry(e.op.connection, e.now + e.op.seconds * 1000), e.now)]
  {
    hide Insert;
  }

  lemma RestartStep(reg: Registry, e: Event)
    requires e.op.Restart?
    ensures var i, r := IndexOf(reg, e.op.loop), WithList(reg, e.op.loop);
      Step(reg, e) == r[i := Restarted(r[i], e.op.connection, e.now + e.op.seconds * 1000, e.now, e.alive)]
  {
    hide Restarted;
  }

  lemma RemoveStep(reg: Registry, e: Event)
    requires e.op.Remove?
    ensures var i, r := IndexOf(reg, e.op.loop), WithList(reg, e.op.loop);
      Step(reg, e) == Replace(r, i, r[i].(entries := Without(r[i].entries, e.op.connection, e.alive)))
  {
    hide Without, Replace;
  }

  lemma SweepStep(reg: Registry, e: Event)
    requires e.op.Sweep?
    ensures var i := IndexOf(reg, e.op.loop);
      Step(reg, e) == if i < |reg| then Replace(reg, i, SweptList(reg[i], e.now, e.alive)) else reg
  {
    hide SweptList, Replace;
  }

  function Run(reg: Registry, es: seq<Event>): Registry
    decreases |es|
  {
    if es == [] then reg else Run(Step(reg, es[0]), es[1..])
  }

  ghost predicate OnePerLoop(reg: Registry) {
    forall i, j :: 0 <= i < j < |reg| ==> reg[i].loop != reg[j].loop
  }

  lemma ReplaceKeeps(reg: Registry, i: nat, l: LoopList)
    requires OnePerLoop(reg) && i < |reg| && l.loop == reg[i].loop
    ensures OnePerLoop(reg[i := l]) && OnePerLoop(Replace(reg, i, l))
  {
  }

  lemma WithListKeeps(reg: Registry, loop: nat)
    requires OnePerLoop(reg)
    ensures OnePerLoop(WithList(reg, loop)) && WithList(reg, loop)[IndexOf(reg, loop)].loop == loop
  {
  }

  /** There is at most one list for a loop, whatever happens. */
  lemma StepKeepsOnePerLoop(reg: Registry, e: Event)
    requires OnePerLoop(reg)
    ensures OnePerLoop(Step(reg, e))
  {
    WithListKeeps(reg, e.op.loop);
    hide Insert, Without, Swept, Restarted, OnePerLoop, Replace;
    var i, r := IndexOf(reg, e.op.loop), WithList(reg, e.op.loop);
    match e.op {
      case Add(_, connection, seconds) =>
        var x := Entry(connection, e.now + seconds * 1000);
        assert Insert(r[i], x, e.now).loop == r[i].loop by { SameLoop(r[i], x, e.now, 0, {}); }
        ReplaceKeeps(r, i, Insert(r[i], x, e.now));
      case Remove(_, connection) =>
        ReplaceKeeps(r, i, r[i].(entries := Without(r[i].entries, connection, e.alive)));
      case Sweep(_) =>
        if i < |reg| {
          ReplaceKeeps(reg, i, SweptList(reg[i], e.now, e.alive));
        }
      case Restart(_, connection, seconds) =>
        var x := Entry(connection, e.now + seconds * 1000);
        SameLoop(r[i], x, e.now, connection, e.alive);
        ReplaceKeeps(r, i, Restarted(r[i], connection, x.endTime, e.now, e.alive));
    }
  }

  lemma SameLoop(l: LoopList, x: Entry, now: nat, connection: nat, alive: set<nat>)
    ensures Insert(l, x, now).loop == l.loop && Restarted(l, connection, x.endTime, now, alive).loop == l.loop
  {
    hide Moved, Place, InsertAt;
  }

  // ---------- order ----------

  lemma SweptSorted(l: LoopList, now: nat, alive: set<nat>)
    requires Sorted(l.entries)
    ensures Sorted(SweptList(l, now, alive).entries)
  {
    hide Sorted, Swept;
    SweepSorted(l.entries, now, alive);
  }

  /** A restarted deadline does no harm: its connection has none, or the next one in the list is not earlier. */
  predicate Harmless(reg: Registry, e: Event) {
    e.op.Restart? && IndexOf(reg, e.op.loop) < |reg| ==>
      var es := reg[IndexOf(reg, e.op.loop)].entries;
      match Find(es, e.op.connection, e.alive)
      case None => true
      case Some(p) => p + 1 == |es| || e.now + e.op.seconds * 1000 <= es[p + 1].endTime
  }

  ghost predicate AllSorted(reg: Registry) {
    forall i :: 0 <= i < |reg| ==> Sorted(reg[i].entries)
  }

  lemma UpdateSorted(reg: Registry, i: nat, l: LoopList)
    requires AllSorted(reg) && i < |reg|
    ensures AllSorted(reg[i := l]) <==> Sorted(l.entries)
  {
    hide Sorted;
    if AllSorted(reg[i := l]) {
      assert reg[i := l][i] == l;
    }
  }

  /** Restarting a deadline keeps the lists sorted exactly when it is harmless. */
  lemma RestartKeepsOrder(reg: Registry, e: Event)
    requires AllSorted(reg) && e.op.Restart?
    ensures AllSorted(Step(reg, e)) <==> Harmless(reg, e)
  {
    hide Sorted, Moved, Place;
    var i, r := IndexOf(reg, e.op.loop), WithList(reg, e.op.loop);
    NothingSorted();
    assert AllSorted(r);
    var endTime := e.now + e.op.seconds * 1000;
    var l := Restarted(r[i], e.op.connection, endTime, e.now, e.alive);
    UpdateSorted(r, i, l);
    var p := Find(r[i].entries, e.op.connection, e.alive);
    if p.Some? {
      MovedSorted(r[i].entries, p.value, endTime);
    }
  }

  lemma NothingSorted()
    ensures Sorted([])
  {
  }

  // ---------- what adding changes ----------

  /** Adding a connection adds one entry to the list of its loop, and changes no other list. */
  lemma AddAddsOne(reg: Registry, e: Event, j: nat)
    requires e.op.Add? && j < |WithList(reg, e.op.loop)|
    ensures |Step(reg, e)| == |WithList(reg, e.op.loop)|
    ensures var l, l' := WithList(reg, e.op.loop)[j], Step(reg, e)[j];
      if j != IndexOf(reg, e.op.loop) then l' == l
      else multiset(l'.entries) ==
        multiset(l.entries) + multiset{Entry(e.op.connection, e.now + e.op.seconds * 1000)}
  {
    hide InsertAt, Place, WithList, IndexOf;
    var l, x := WithList(reg, e.op.loop)[j], Entry(e.op.connection, e.now + e.op.seconds * 1000);
    InsertAddsOne(l.entries, Place(l.entries, x.endTime), x);
  }

  // ---------- runs ----------

  /** Over any run from the start, at most one list for each loop. */
  lemma {:induction false} RunKeepsOnePerLoop(reg: Registry, es: seq<Event>)
    requires OnePerLoop(reg)
    ensures OnePerLoop(Run(reg, es))
    decreases |es|
  {
    hide Step, OnePerLoop;
    if es != [] {
      StepKeepsOnePerLoop(reg, es[0]);
      RunKeepsOnePerLoop(Step(reg, es[0]), es[1..]);
    }
  }

  lemma ReplaceSorted(reg: Registry, i: nat, l: LoopList)
    requires AllSorted(reg) && i < |reg| && Sorted(l.entries)
    ensures AllSorted(Replace(reg, i, l))
  {
    hide Sorted;
  }

  lemma WithListSorted(reg: Registry, loop: nat)
    requires AllSorted(reg)
    ensures AllSorted(WithList(reg, loop)) && Sorted(WithList(reg, loop)[IndexOf(reg, loop)].entries)
  {
    NothingSorted();
    hide Sorted;
  }

  lemma AddKeepsSorted(reg: Registry, e: Event)
    requires AllSorted(reg) && e.op.Add?
    ensures AllSorted(Step(reg, e))
  {
    hide Step, Sorted, AllSorted, WithList, IndexOf, Insert;
    AddStep(reg, e);
    WithListSorted(reg, e.op.loop);
    var i, r := IndexOf(reg, e.op.loop), WithList(reg, e.op.loop);
    var x := Entry(e.op.connection, e.now + e.op.seconds * 1000);
    InsertedSorted(r[i], x, e.now);
    UpdateSorted(r, i, Insert(r[i], x, e.now));
  }

  lemma InsertedSorted(l: LoopList, x: Entry, now: nat)
    requires Sorted(l.entries)
    ensures Sorted(Insert(l, x, now).entries)
  {
    InsertSorted(l.entries, x);
  }

  lemma RemoveKeepsSorted(reg: Registry, e: Event)
    requires AllSorted(reg) && e.op.Remove?
    ensures AllSorted(Step(reg, e))
  {
    hide Step, Sorted, AllSorted, WithList, IndexOf, Without, Replace;
    RemoveStep(reg, e);
    WithListSorted(reg, e.op.loop);
    var i, r := IndexOf(reg, e.op.loop), WithList(reg, e.op.loop);
    WithoutSorted(r[i].entries, e.op.connection, e.alive);
    ReplaceSorted(r, i, r[i].(entries := Without(r[i].entries, e.op.connection, e.alive)));
  }

  lemma SweepKeepsSorted(reg: Registry, e: Event)
    requires AllSorted(reg) && e.op.Sweep?
    ensures AllSorted(Step(reg, e))
  {
    hide Step, SweptList, Sorted, Replace, IndexOf;
    SweepStep(reg, e);
    var i := IndexOf(reg, e.op.loop);
    if i < |reg| {
      SweptSorted(reg[i], e.now, e.alive);
      ReplaceSorted(reg, i, SweptList(reg[i], e.now, e.alive));
    }
  }

  lemma StepKeepsSorted(reg: Registry, e: Event)
    requires AllSorted(reg) && Harmless(reg, e)
    ensures AllSorted(Step(reg, e))
  {
    hide *;
    match e.op {
      case Add(_, _, _) => AddKeepsSorted(reg, e);
      case Remove(_, _) => RemoveKeepsSorted(reg, e);
      case Sweep(_) => SweepKeepsSorted(reg, e);
      case Restart(_, _, _) => RestartKeepsOrder(reg, e);
    }
  }

  // ---------- no list stays empty ----------

  ghost predicate NoneEmpty(reg: Registry) {
    forall i :: 0 <= i < |reg| ==> reg[i].entries != []
  }

  /** The loop of a restarted connection has a list. */
  predicate Listed(reg: Registry, e: Event) {
    e.op.Restart? ==> IndexOf(reg, e.op.loop) < |reg|
  }

  lemma ReplaceNoneEmpty(reg: Registry, i: nat, l: LoopList)
    requires i < |reg| && forall j :: 0 <= j < |reg| && j != i ==> reg[j].entries != []
    ensures NoneEmpty(Replace(reg, i, l)) && (l.entries != [] ==> NoneEmpty(reg[i := l]))
  {
  }

  lemma WithListRest(reg: Registry, loop: nat)
    requires NoneEmpty(reg)
    ensures var i, r := IndexOf(reg, loop), WithList(reg, loop);
      forall j :: 0 <= j < |r| && j != i ==> r[j].entries != []
  {
  }

  lemma StepKeepsNoneEmpty(reg: Registry, e: Event)
    requires NoneEmpty(reg) && Listed(reg, e)
    ensures NoneEmpty(Step(reg, e))
  {
    hide Step, IndexOf, WithList, Insert, Without, SweptList, Restarted, Replace, NoneEmpty;
    var i, r := IndexOf(reg, e.op.loop), WithList(reg, e.op.loop);
    WithListRest(reg, e.op.loop);
    match e.op {
      case Add(_, connection, seconds) =>
        var x := Entry(connection, e.now + seconds * 1000);
        AddStep(reg, e);
        InsertedNonEmpty(r[i], x, e.now);
        ReplaceNoneEmpty(r, i, Insert(r[i], x, e.now));
      case Remove(_, connection) =>
        RemoveStep(reg, e);
        ReplaceNoneEmpty(r, i, r[i].(entries := Without(r[i].entries, connection, e.alive)));
      case Sweep(_) =>
        SweepStep(reg, e);
        SameList(reg, e.op.loop);
        if i < |reg| {
          ReplaceNoneEmpty(reg, i, SweptList(reg[i], e.now, e.alive));
        }
      case Restart(_, connection, seconds) =>
        RestartStep(reg, e);
        SameList(reg, e.op.loop);
        IsNonEmpty(reg, i);
        RestartedNonEmpty(r[i], connection, e.now + seconds * 1000, e.now, e.alive);
        ReplaceNoneEmpty(r, i, Restarted(r[i], connection, e.now + seconds * 1000, e.now, e.alive));
    }
  }

  lemma SameList(reg: Registry, loop: nat)
    ensures IndexOf(reg, loop) < |reg| ==> WithList(reg, loop) == reg
  {
  }

  lemma IsNonEmpty(reg: Registry, i: nat)
    requires NoneEmpty(reg) && i < |reg|
    ensures reg[i].entries != []
  {
  }

  lemma InsertedNonEmpty(l: LoopList, x: Entry, now: nat)
    ensures Insert(l, x, now).entries != []
  {
  }

  lemma RestartedNonEmpty(l: LoopList, connection: nat, endTime: nat, now: nat, alive: set<nat>)
    requires l.entries != []
    ensures Restarted(l, connection, endTime, now, alive).entries != []
  {
    hide Moved, Place;
    var p := Find(l.entries, connection, alive);
    if p.Some? {
      var i := MovedAt(l.entries, p.value, endTime);
    }
  }

  /** Every restart of the run is harmless when it happens. */
  predicate HarmlessRun(reg: Registry, es: seq<Event>)
    decreases |es|
  {
    es == [] || (Harmless(reg, es[0]) && HarmlessRun(Step(reg, es[0]), es[1..]))
  }

  /** Every restart of the run finds a list for its loop. */
  predicate ListedRun(reg: Registry, es: seq<Event>)
    decreases |es|
  {
    es == [] || (Listed(reg, es[0]) && ListedRun(Step(reg, es[0]), es[1..]))
  }

  /** Over any run whose restarts are harmless all lists stay sorted. */
  lemma {:induction false} RunKeepsOrder(reg: Registry, es: seq<Event>)
    requires AllSorted(reg) && HarmlessRun(reg, es)
    ensures AllSorted(Run(reg, es))
    decreases |es|
  {
    hide Step, AllSorted, Harmless;
    if es != [] {
      StepKeepsSorted(reg, es[0]);
      RunKeepsOrder(Step(reg, es[0]), es[1..]);
    }
  }

  /** Over any run whose restarts find a list for their loop no list stays empty. */
  lemma {:induction false} RunLeavesNoneEmpty(reg: Registry, es: seq<Event>)
    requires NoneEmpty(reg) && ListedRun(reg, es)
    ensures NoneEmpty(Run(reg, es))
    decreases |es|
  {
    hide Step, NoneEmpty, Listed;
    if es != [] {
      StepKeepsNoneEmpty(reg, es[0]);
      RunLeavesNoneEmpty(Step(reg, es[0]), es[1..]);
    }
  }

  /**
   After a sweep of a sorted list everything left in it is due later, and its timer repeats
   after the time that is left until the first deadline. Lists of other loops are unchanged.
   */
  lemma SweepLeavesLater(reg: Registry, e: Event, j: nat)
    requires OnePerLoop(reg) && AllSorted(reg) && e.op.Sweep? && j < |Step(reg, e)|
    ensures var l := Step(reg, e)[j];
      if l.loop != e.op.loop then l in reg
      else
        l.entries != [] && (forall k :: 0 <= k < |l.entries| ==> e.now < l.entries[k].endTime)
        && l.timer.repeat == l.entries[0].endTime - e.now
  {
    var i := IndexOf(reg, e.op.loop);
    hide Swept, Sorted;
    if i < |reg| {
      SweepSorted(reg[i].entries, e.now, e.alive);
    }
  }
}
