/**
 What a request executes. A plugin's chain may reach further plugins, each with a chain
 of its own; a callback may send the response, and may reject. Once the response has been
 sent the sent flag stays set.
 */
module DispatchRuns {
  import opened Wrappers
  import opened Dispatch

  datatype Outcome = Outcome(sends: bool, rejects: bool)

  /** What a callback does may depend on all that have been executed before it. */
  type Behaviour = seq<CallbackData> -> Outcome

  /** The callbacks executed so far, the sent flag, and whether the chain is rejected. */
  datatype Exec = Exec(calls: seq<CallbackData>, sent: bool, rejected: bool)

  function RunCallback(b: Behaviour, c: CallbackData, x: Exec): Exec {
    var calls := x.calls + [c];
    Exec(calls, x.sent || b(calls).sends, b(calls).rejects)
  }

  predicate Stopped(x: Exec) {
    x.sent || x.rejected
  }

  /** A request's method and the matching of its paths. */
  datatype Request = Request(matcher: Matcher, name: string)

  ghost function Links(r: Request, p: ServerPlugin, path: string): seq<Link>
    reads p
  {
    Chain(InOrder(r.matcher, p.View(), path, r.name), path, true)
  }

  /** Plugins inside plugins are followed to depth d. */
  ghost function RunPlugin(r: Request, b: Behaviour, p: ServerPlugin, d: nat, path: string, x: Exec): Exec
    reads *
    decreases d, 1, 0
  {
    RunLinks(r, b, Links(r, p, path), d, x.(rejected := false))
  }

  /**
   The continuations: after a rejection none is run, and after the response has been
   sent those that ask do nothing.
   */
  ghost function RunLinks(r: Request, b: Behaviour, links: seq<Link>, d: nat, x: Exec): Exec
    reads *
    decreases d, 0, |links|
  {
    if links == [] then x
    else
      var x' := if links[0].asksFirst && Stopped(x) then x else RunTarget(r, b, links[0].target, d, links[0].path, x);
      RunLinks(r, b, links[1..], d, x')
  }

  ghost function RunTarget(r: Request, b: Behaviour, t: Target, d: nat, path: string, x: Exec): Exec
    reads *
    decreases d, 0, 0
  {
    match t
    case Callback(c) => RunCallback(b, c, x)
    case Mounted(q) => if d == 0 then x else RunPlugin(r, b, q.plugin, d - 1, path, x)
  }

  // ---------- the flat list of callbacks ----------

  /** The callbacks that a request reaches, through all plugins, in order. */
  ghost function Leaves(r: Request, p: ServerPlugin, d: nat, path: string): seq<CallbackData>
    reads *
    decreases d, 1, 0
  {
    LinkLeaves(r, Links(r, p, path), d)
  }

  ghost function LinkLeaves(r: Request, links: seq<Link>, d: nat): seq<CallbackData>
    reads *
    decreases d, 0, |links|
  {
    if links == [] then []
    else TargetLeaves(r, links[0].target, d, links[0].path) + LinkLeaves(r, links[1..], d)
  }

  ghost function TargetLeaves(r: Request, t: Target, d: nat, path: string): seq<CallbackData>
    reads *
    decreases d, 0, 0
  {
    match t
    case Callback(c) => [c]
    case Mounted(q) => if d == 0 then [] else Leaves(r, q.plugin, d - 1, path)
  }

  /** One callback after the other, until one sends or rejects. */
  function RunFlat(b: Behaviour, cs: seq<CallbackData>, x: Exec): Exec
    decreases |cs|
  {
    if cs == [] || Stopped(x) then x else RunFlat(b, cs[1..], RunCallback(b, cs[0], x))
  }

  lemma {:induction false} RunFlatAppend(b: Behaviour, cs: seq<CallbackData>, cs': seq<CallbackData>, x: Exec)
    ensures RunFlat(b, cs + cs', x) == RunFlat(b, cs', RunFlat(b, cs, x))
    decreases |cs|
  {
    if cs == [] {
      assert cs + cs' == cs';
    } else if !Stopped(x) {
      RunFlatAppend(b, cs[1..], cs', RunCallback(b, cs[0], x));
      assert (cs + cs')[0] == cs[0] && (cs + cs')[1..] == cs[1..] + cs';
    }
  }

  ghost predicate AllAsk(links: seq<Link>) {
    forall i :: 0 <= i < |links| ==> links[i].asksFirst
  }

  lemma {:induction false} ChainAsks(ms: seq<Matched>, path: string)
    ensures AllAsk(Chain(ms, path, false))
  {
    if ms != [] {
      ChainAsks(ms[1..], path);
    }
  }

  lemma {:induction false} LinksAreFlat(r: Request, b: Behaviour, links: seq<Link>, d: nat, x: Exec)
    requires links != [] ==> AllAsk(links[1..])
    requires !Stopped(x) || AllAsk(links)
    ensures RunLinks(r, b, links, d, x) == RunFlat(b, LinkLeaves(r, links, d), x)
    decreases d, 0, |links|
  {
    if links != [] {
      var l := links[0];
      var x' := if l.asksFirst && Stopped(x) then x else RunTarget(r, b, l.target, d, l.path, x);
      assert links[1..] != [] ==> AllAsk(links[1..][1..]);
      if !Stopped(x) {
        TargetIsFlat(r, b, l.target, d, l.path, x);
      }
      LinksAreFlat(r, b, links[1..], d, x');
      RunFlatAppend(b, TargetLeaves(r, l.target, d, l.path), LinkLeaves(r, links[1..], d), x);
    }
  }

  lemma {:induction false} TargetIsFlat(r: Request, b: Behaviour, t: Target, d: nat, path: string, x: Exec)
    requires !Stopped(x)
    ensures RunTarget(r, b, t, d, path, x) == RunFlat(b, TargetLeaves(r, t, d, path), x)
    decreases d, 0, 0
  {
    if t.Callback? {
      assert [t.callback][1..] == [];
    } else if d > 0 {
      PluginIsFlat(r, b, t.data.plugin, d - 1, path, x);
    }
  }

  /** Executing a plugin is executing its callbacks, and those of the plugins in it, one after the other. */
  lemma {:induction false} PluginIsFlat(r: Request, b: Behaviour, p: ServerPlugin, d: nat, path: string, x: Exec)
    requires !Stopped(x)
    ensures RunPlugin(r, b, p, d, path, x) == RunFlat(b, Leaves(r, p, d, path), x)
    decreases d, 1, 0
  {
    var ms := InOrder(r.matcher, p.View(), path, r.name);
    if ms != [] {
      ChainAsks(ms[1..], path);
      assert Links(r, p, path)[1..] == Chain(ms[1..], path, false);
    }
    LinksAreFlat(r, b, Links(r, p, path), d, x);
  }

  // ---------- what is executed ----------

  predicate Stops(b: Behaviour, calls: seq<CallbackData>) {
    b(calls).sends || b(calls).rejects
  }

  /** The n-th callback of cs is the first that sends or rejects, or there is none and n is their number. */
  ghost predicate FirstStop(b: Behaviour, cs: seq<CallbackData>, n: nat) {
    && n <= |cs|
    && (forall k :: 0 < k < n ==> !Stops(b, cs[..k]))
    && (n < |cs| ==> n > 0 && Stops(b, cs[..n]))
  }

  /** A run from `done` on executes up to the first that stops, and ends stopped exactly when that one does. */
  lemma {:induction false} FlatIsPrefix(b: Behaviour, done: seq<CallbackData>, cs: seq<CallbackData>) returns (n: nat)
    requires forall k :: 0 < k <= |done| ==> !Stops(b, done[..k])
    ensures |done| <= n && FirstStop(b, done + cs, n)
    ensures var x := RunFlat(b, cs, Exec(done, false, false));
      x.calls == (done + cs)[..n] && (n > |done| ==> x.sent == b(x.calls).sends && x.rejected == b(x.calls).rejects)
      && (n == |done| ==> !Stopped(x))
    decreases |cs|
  {
    if cs == [] {
      n := |done|;
      assert done + cs == done && done[..n] == done;
    } else {
      var all, more := done + cs, done + [cs[0]];
      assert all[..|more|] == more && more + cs[1..] == all;
      if Stops(b, more) {
        n := |more|;
        assert forall k :: 0 < k < n ==> all[..k] == done[..k];
      } else {
        forall k | 0 < k <= |more|
          ensures !Stops(b, more[..k])
        {
          assert k <= |done| ==> more[..k] == done[..k];
          assert k == |more| ==> more[..k] == more;
        }
        n := FlatIsPrefix(b, more, cs[1..]);
      }
    }
  }

  /**
   The callbacks executed for a request are those that it reaches up to and including the
   first one that sends the response or rejects, and the result is what that one leaves.
   */
  lemma ExecutedIsPrefix(r: Request, b: Behaviour, p: ServerPlugin, d: nat, path: string) returns (n: nat)
    ensures var cs, x := Leaves(r, p, d, path), RunPlugin(r, b, p, d, path, Exec([], false, false));
      FirstStop(b, cs, n) && x.calls == cs[..n]
      && (n > 0 ==> x.sent == b(x.calls).sends && x.rejected == b(x.calls).rejects) && (n == 0 ==> !Stopped(x))
    ensures forall k :: FirstStop(b, Leaves(r, p, d, path), k) ==> k == n
  {
    var cs := Leaves(r, p, d, path);
    PluginIsFlat(r, b, p, d, path, Exec([], false, false));
    n := FlatIsPrefix(b, [], cs);
    assert [] + cs == cs;
    forall k | FirstStop(b, cs, k)
      ensures k == n
    {
      FirstStopIsUnique(b, cs, n, k);
    }
  }

  /** Only one number can be that of the first callback that stops. */
  lemma FirstStopIsUnique(b: Behaviour, cs: seq<CallbackData>, n: nat, n': nat)
    requires FirstStop(b, cs, n) && FirstStop(b, cs, n')
    ensures n == n'
  {
    if n < n' {
      assert false;
    }
    if n' < n {
      assert false;
    }
  }

  // ---------- depth ----------

  /** Plugins are nested at most d deep. */
  ghost predicate Height(p: ServerPlugin, d: nat)
    reads *
    decreases d
  {
    forall i :: 0 <= i < |p.plugins| ==> d > 0 && Height(p.plugins[i].plugin, d - 1)
  }

  lemma {:induction false} MatchingFrom(m: Matcher, ts: seq<Target>, path: string, x: Matched)
    requires x in Matching(m, ts, path)
    ensures x.target in ts && MatchUri(m, x.target, path) == Some(x.length)
  {
    var head := match MatchUri(m, ts[0], path) case None => [] case Some(n) => [Matched(ts[0], n)];
    if x !in head {
      MatchingFrom(m, ts[1..], path, x);
    }
  }

  lemma {:induction false} OfLengthFrom(ms: seq<Matched>, n: nat, x: Matched)
    requires x in OfLength(ms, n)
    ensures x in ms
  {
    if x != ms[0] {
      OfLengthHead(ms, n);
      OfLengthFrom(ms[1..], n, x);
    }
  }

  lemma {:induction false} AscendingFrom(ms: seq<Matched>, from: nat, end: nat, x: Matched)
    requires x in Ascending(ms, from, end)
    ensures x in ms
    decreases end - from
  {
    if x in OfLength(ms, from) {
      OfLengthFrom(ms, from, x);
    } else {
      AscendingFrom(ms, from + 1, end, x);
    }
  }

  lemma {:induction false} ChainFrom(ms: seq<Matched>, path: string, isFirst: bool, l: Link)
    requires l in Chain(ms, path, isFirst)
    ensures exists x :: x in ms && x.target == l.target
  {
    if l.target == ms[0].target {
      assert ms[0] in ms;
    } else {
      ChainFrom(ms[1..], path, false, l);
    }
  }

  /** Every target of a chain is registered for the request's method, and matches the path. */
  lemma ChainIsRegistered(r: Request, level: Level, path: string, l: Link)
    requires l in Chain(InOrder(r.matcher, level, path, r.name), path, true)
    ensures l.target in Targets(level, r.name) && MatchUri(r.matcher, l.target, path).Some?
    ensures match l.target
      case Mounted(q) => q in level.plugins
      case Callback(c) => c in Registered(level, "") || c in Registered(level, r.name)
  {
    var ms := InOrder(r.matcher, level, path, r.name);
    ChainFrom(ms, path, true, l);
    var x :| x in ms && x.target == l.target;
    AscendingFrom(Matching(r.matcher, Targets(level, r.name), path), 0, |path| + 1, x);
    MatchingFrom(r.matcher, Targets(level, r.name), path, x);
    AllMountedAt(level.plugins);
    AllCallbacksAt(Registered(level, ""));
    AllCallbacksAt(Registered(level, r.name));
  }

  /** The callback is in a list of the plugin, or of one mounted in it, to depth d. */
  ghost predicate Lists(p: ServerPlugin, d: nat, c: CallbackData)
    reads *
    decreases d
  {
    (exists name :: name in p.methodCallbacks && c in p.methodCallbacks[name]) ||
    (d > 0 && exists i :: 0 <= i < |p.plugins| && Lists(p.plugins[i].plugin, d - 1, c))
  }

  /** A request reaches only callbacks that are in some list, through any nesting of plugins. */
  lemma {:induction false} LeavesAreListed(r: Request, p: ServerPlugin, d: nat, path: string, c: CallbackData)
    requires c in Leaves(r, p, d, path)
    ensures Lists(p, d, c)
    decreases d, 1, 0
  {
    var l := LeafLink(r, Links(r, p, path), d, c);
    ChainIsRegistered(r, p.View(), path, l);
    hide Links, LinkLeaves, InOrder, Chain, Targets, MatchUri, Lists;
    if l.target.Mounted? {
      LeavesAreListed(r, l.target.data.plugin, d - 1, l.path, c);
      MountedLists(p, d, c, l.target.data);
    } else {
      OwnLists(p, d, c, r.name);
    }
  }

  lemma MountedLists(p: ServerPlugin, d: nat, c: CallbackData, q: PluginData)
    requires d > 0 && q in p.plugins && Lists(q.plugin, d - 1, c)
    ensures Lists(p, d, c)
  {
  }

  lemma OwnLists(p: ServerPlugin, d: nat, c: CallbackData, name: string)
    requires c in Registered(p.View(), "") || c in Registered(p.View(), name)
    ensures Lists(p, d, c)
  {
  }

  /** The link that a leaf comes from. */
  lemma {:induction false} LeafLink(r: Request, links: seq<Link>, d: nat, c: CallbackData) returns (l: Link)
    requires c in LinkLeaves(r, links, d)
    ensures l in links && c in TargetLeaves(r, l.target, d, l.path)
    decreases |links|
  {
    if c in TargetLeaves(r, links[0].target, d, links[0].path) {
      l := links[0];
    } else {
      l := LeafLink(r, links[1..], d, c);
    }
  }

  /**
   After a callback has been removed from a plugin no request to it reaches the callback,
   unless a plugin mounted in it has the callback in a list of its own.
   */
  lemma RemovedIsNotReached(r: Request, p: ServerPlugin, d: nat, path: string, before: Level, c: CallbackData)
    requires p.View() == Removed(before, c)
    requires forall i :: 0 <= i < |p.plugins| ==> d > 0 ==> !Lists(p.plugins[i].plugin, d - 1, c)
    ensures c !in Leaves(r, p, d, path)
  {
    forall name | name in p.methodCallbacks
      ensures c !in p.methodCallbacks[name]
    {
      WithoutIs(before.methods[name], c, c);
    }
    assert !Lists(p, d, c);
    if c in Leaves(r, p, d, path) {
      LeavesAreListed(r, p, d, path, c);
    }
  }

  lemma {:induction false} WithoutIs<T>(s: seq<T>, x: T, y: T)
    ensures y in Without(s, x) <==> y in s && y != x
  {
    if s != [] {
      WithoutIs(s[1..], x, y);
    }
  }

  lemma {:induction false} DepthDoesNotMatter(r: Request, p: ServerPlugin, d: nat, d': nat, path: string)
    requires Height(p, d) && d <= d'
    ensures Leaves(r, p, d, path) == Leaves(r, p, d', path)
    decreases d, 1, 0
  {
    forall l | l in Links(r, p, path) && l.target.Mounted?
      ensures d > 0 && Height(l.target.data.plugin, d - 1)
    {
      ChainIsRegistered(r, p.View(), path, l);
    }
    LinkDepth(r, Links(r, p, path), d, d');
  }

  lemma {:induction false} LinkDepth(r: Request, links: seq<Link>, d: nat, d': nat)
    requires d <= d'
    requires forall l :: l in links && l.target.Mounted? ==> d > 0 && Height(l.target.data.plugin, d - 1)
    ensures LinkLeaves(r, links, d) == LinkLeaves(r, links, d')
    decreases d, 0, |links|
  {
    if links != [] {
      LinkDepth(r, links[1..], d, d');
      if links[0].target.Mounted? {
        assert links[0] in links;
        DepthDoesNotMatter(r, links[0].target.data.plugin, d - 1, d' - 1, links[0].path);
      }
    }
  }

  // ---------- the path of the first target ----------

  /** The callbacks reached through matches that get what is left of the path. */
  ghost function LaterLeaves(r: Request, ms: seq<Matched>, path: string, d: nat): seq<CallbackData>
    reads *
  {
    if ms == [] then []
    else TargetLeaves(r, ms[0].target, d, Suffix(path, ms[0].length)) + LaterLeaves(r, ms[1..], path, d)
  }

  lemma {:induction false} LaterLeavesAreLeaves(r: Request, ms: seq<Matched>, path: string, d: nat)
    ensures LinkLeaves(r, Chain(ms, path, false), d) == LaterLeaves(r, ms, path, d)
  {
    if ms != [] {
      LaterLeavesAreLeaves(r, ms[1..], path, d);
      var links := Chain(ms, path, false);
      assert links[1..] == Chain(ms[1..], path, false);
    }
  }

  /**
   A plugin in first place matches its own routes against the whole path, not against what
   its match leaves of it; all other targets get the rest.
   */
  lemma FirstTargetGetsWholePath(r: Request, p: ServerPlugin, d: nat, path: string)
    requires InOrder(r.matcher, p.View(), path, r.name) != []
    ensures var ms := InOrder(r.matcher, p.View(), path, r.name);
      && Leaves(r, p, d, path) == TargetLeaves(r, ms[0].target, d, path) + LaterLeaves(r, ms[1..], path, d)
      && (ms[0].target.Mounted? && d > 0 ==>
           Leaves(r, ms[0].target.data.plugin, d - 1, path) <= Leaves(r, p, d, path))
  {
    var ms := InOrder(r.matcher, p.View(), path, r.name);
    hide InOrder;
    LaterLeavesAreLeaves(r, ms[1..], path, d);
    var links := Links(r, p, path);
    assert links[1..] == Chain(ms[1..], path, false);
  }

  lemma {:induction false} SuffixOfMatch(r: Request, ms: seq<Matched>, path: string, l: Link)
    requires forall x :: x in ms ==> MatchUri(r.matcher, x.target, path) == Some(x.length)
    requires l in Chain(ms, path, false)
    ensures l.path == "" || l.path[0] == '/'
  {
    if l.path != Suffix(path, ms[0].length) {
      SuffixOfMatch(r, ms[1..], path, l);
    }
  }

  /** What is left of the path for any target but the first is empty or starts with a slash. */
  lemma LaterPathsStartWithSlash(r: Request, level: Level, path: string, l: Link)
    requires l in Chain(InOrder(r.matcher, level, path, r.name), path, true) && l.asksFirst
    ensures l.path == "" || l.path[0] == '/'
  {
    var ms := InOrder(r.matcher, level, path, r.name);
    forall x | x in ms
      ensures MatchUri(r.matcher, x.target, path) == Some(x.length)
    {
      AscendingFrom(Matching(r.matcher, Targets(level, r.name), path), 0, |path| + 1, x);
      MatchingFrom(r.matcher, Targets(level, r.name), path, x);
    }
    hide InOrder, MatchUri;
    assert l in Chain(ms[1..], path, false);
    SuffixOfMatch(r, ms[1..], path, l);
  }

  // ---------- matches of the whole path ----------

  ghost predicate AllWhole(ms: seq<Matched>, path: string) {
    forall x :: x in ms ==> x.length == |path|
  }

  lemma {:induction false} OfWholeLength(ms: seq<Matched>, path: string, n: nat)
    requires AllWhole(ms, path)
    ensures OfLength(ms, n) == if n == |path| then ms else []
  {
    if ms != [] {
      assert ms == [ms[0]] + ms[1..];
      OfWholeLength(ms[1..], path, n);
    }
  }

  lemma {:induction false} AscendingWhole(ms: seq<Matched>, path: string, from: nat)
    requires AllWhole(ms, path) && from <= |path|
    ensures Ascending(ms, from, |path| + 1) == ms
    decreases |path| - from
  {
    OfWholeLength(ms, path, from);
    hide OfLength;
    if from < |path| {
      AscendingWhole(ms, path, from + 1);
      assert [] + ms == ms;
    } else {
      assert Ascending(ms, from + 1, |path| + 1) == [] && ms + [] == ms;
    }
  }

  /**
   If every match is one of the whole path, as the end anchor of the path patterns makes it
   for templates without alternatives, the order is that of registration and nothing is
   left of the path for any target but the first.
   */
  lemma WholePathMatches(r: Request, level: Level, path: string, l: Link)
    requires AllWhole(Matching(r.matcher, Targets(level, r.name), path), path)
    ensures InOrder(r.matcher, level, path, r.name) == Matching(r.matcher, Targets(level, r.name), path)
    ensures l in Chain(InOrder(r.matcher, level, path, r.name), path, true) && l.asksFirst ==> l.path == ""
  {
    var ms := Matching(r.matcher, Targets(level, r.name), path);
    AscendingWhole(ms, path, 0);
    hide Matching, Targets, Ascending;
    if l in Chain(ms, path, true) && l.asksFirst {
      WholeSuffix(ms[1..], path, l);
    }
  }

  lemma {:induction false} WholeSuffix(ms: seq<Matched>, path: string, l: Link)
    requires AllWhole(ms, path) && l in Chain(ms, path, false)
    ensures l.path == ""
  {
    if l.path != Suffix(path, ms[0].length) {
      WholeSuffix(ms[1..], path, l);
    } else {
      assert ms[0] in ms;
    }
  }
}
