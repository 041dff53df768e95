/**
 Which targets a request reaches, said of the engine and of the lists alone: every entry
 of the lists that matches has one link, and no other entry has any.
 */
module DispatchLaws {
  import opened Wrappers
  import opened Dispatch
  import opened DispatchRuns
  import opened Selections

  /** The entries of the lists in the order of registration: plugins, then `use`, then the method's. */
  ghost function Candidates(l: Level, name: string): seq<Target> {
    var use := if "" in l.methods then l.methods[""] else [];
    var own := if name in l.methods then l.methods[name] else [];
    seq(|l.plugins|, i requires 0 <= i < |l.plugins| => Mounted(l.plugins[i])) +
    seq(|use|, i requires 0 <= i < |use| => Callback(use[i])) +
    seq(|own|, i requires 0 <= i < |own| => Callback(own[i]))
  }

  /** The engine matches the first n characters of the path, which end at its end or in front of a slash. */
  predicate Hits(m: Matcher, t: Target, path: string, n: nat) {
    && (match t
        case Callback(c) => m(c.uri, c.wholePath, path) == Some(n)
        case Mounted(q) => m(q.uri, false, path) == Some(n))
    && 0 < n <= |path| && (n == |path| || path[n] == '/')
  }

  ghost predicate MatchPlaces(m: Matcher, ts: seq<Target>, path: string, ms: seq<Matched>, pos: seq<nat>) {
    |pos| == |ms| && forall k :: 0 <= k < |pos| ==>
      pos[k] < |ts| && ms[k].target == ts[pos[k]] && Hits(m, ts[pos[k]], path, ms[k].length)
  }

  ghost predicate MatchComplete(m: Matcher, ts: seq<Target>, path: string, pos: seq<nat>) {
    forall i: nat, n :: i < |ts| && Hits(m, ts[i], path, n) ==> i in pos
  }

  /** Where the matches stand among the targets. */
  ghost predicate MatchesAt(m: Matcher, ts: seq<Target>, path: string, ms: seq<Matched>, pos: seq<nat>) {
    MatchPlaces(m, ts, path, ms, pos) && Increasing(pos) && MatchComplete(m, ts, path, pos)
  }

  lemma HitsIs(m: Matcher, t: Target, path: string, n: nat)
    ensures Hits(m, t, path, n) <==> MatchUri(m, t, path) == Some(n)
  {
  }

  lemma {:induction false} MatchingAt(m: Matcher, ts: seq<Target>, path: string) returns (pos: seq<nat>)
    ensures MatchesAt(m, ts, path, Matching(m, ts, path), pos)
    decreases |ts|
  {
    if ts == [] {
      pos := [];
    } else {
      var rest := MatchingAt(m, ts[1..], path);
      var length := MatchUri(m, ts[0], path);
      forall n: nat
        ensures Hits(m, ts[0], path, n) <==> length == Some(n)
      {
        HitsIs(m, ts[0], path, n);
      }
      var n: nat := if length.Some? then length.value else 0;
      hide MatchUri, Hits, Matching;
      if length.Some? {
        pos := [0] + Shifted(rest);
        MatchAndRest(m, ts, path, n, Matching(m, ts[1..], path), rest);
        MatchingSome(m, ts, path, n);
      } else {
        pos := Shifted(rest);
        NoMatchAndRest(m, ts, path, Matching(m, ts[1..], path), rest);
        MatchingNone(m, ts, path);
      }
    }
  }

  lemma MatchingSome(m: Matcher, ts: seq<Target>, path: string, n: nat)
    requires ts != [] && MatchUri(m, ts[0], path) == Some(n)
    ensures Matching(m, ts, path) == [Matched(ts[0], n)] + Matching(m, ts[1..], path)
  {
    hide MatchUri;
  }

  lemma MatchingNone(m: Matcher, ts: seq<Target>, path: string)
    requires ts != [] && MatchUri(m, ts[0], path) == None
    ensures Matching(m, ts, path) == Matching(m, ts[1..], path)
  {
    hide MatchUri;
    assert [] + Matching(m, ts[1..], path) == Matching(m, ts[1..], path);
  }

  lemma TailAt(ts: seq<Target>, i: nat)
    requires i < |ts| - 1
    ensures ts[1..][i] == ts[i + 1]
  {
  }

  lemma LaterPlaces(m: Matcher, ts: seq<Target>, path: string, ms: seq<Matched>, rest: seq<nat>)
    requires ts != [] && MatchPlaces(m, ts[1..], path, ms, rest)
    ensures MatchPlaces(m, ts, path, ms, Shifted(rest))
  {
    var pos := Shifted(rest);
    hide Hits, Shifted;
    forall k | 0 <= k < |pos|
      ensures pos[k] < |ts| && ms[k].target == ts[pos[k]] && Hits(m, ts[pos[k]], path, ms[k].length)
    {
      TailAt(ts, rest[k]);
    }
  }

  lemma FirstPlaces(m: Matcher, ts: seq<Target>, path: string, n: nat, ms: seq<Matched>, pos: seq<nat>)
    requires ts != [] && Hits(m, ts[0], path, n) && MatchPlaces(m, ts, path, ms, pos)
    ensures MatchPlaces(m, ts, path, [Matched(ts[0], n)] + ms, [0] + pos)
  {
    hide Hits;
  }

  lemma LaterComplete(m: Matcher, ts: seq<Target>, path: string, rest: seq<nat>, i: nat, n: nat)
    requires 0 < i < |ts| && Hits(m, ts[i], path, n) && MatchComplete(m, ts[1..], path, rest)
    ensures i in Shifted(rest)
  {
    hide Hits, Shifted;
    TailAt(ts, i - 1);
    assert i - 1 in rest;
  }

  lemma MatchAndRest(m: Matcher, ts: seq<Target>, path: string, n: nat, ms: seq<Matched>, rest: seq<nat>)
    requires ts != [] && Hits(m, ts[0], path, n) && MatchesAt(m, ts[1..], path, ms, rest)
    ensures MatchesAt(m, ts, path, [Matched(ts[0], n)] + ms, [0] + Shifted(rest))
  {
    hide Hits, Shifted, Increasing, MatchPlaces;
    LaterPlaces(m, ts, path, ms, rest);
    FirstPlaces(m, ts, path, n, ms, Shifted(rest));
    FirstIncreases(rest);
    forall i: nat, k | i < |ts| && Hits(m, ts[i], path, k)
      ensures i in [0] + Shifted(rest)
    {
      if i > 0 {
        LaterComplete(m, ts, path, rest, i, k);
      }
      FirstOrLater(Shifted(rest), i);
    }
  }

  lemma NoMatchAndRest(m: Matcher, ts: seq<Target>, path: string, ms: seq<Matched>, rest: seq<nat>)
    requires ts != [] && (forall n :: !Hits(m, ts[0], path, n)) && MatchesAt(m, ts[1..], path, ms, rest)
    ensures MatchesAt(m, ts, path, ms, Shifted(rest))
  {
    hide Hits, Shifted, Increasing, MatchPlaces;
    LaterPlaces(m, ts, path, ms, rest);
    FirstIncreases(rest);
    forall i: nat, k | i < |ts| && Hits(m, ts[i], path, k)
      ensures i in Shifted(rest)
    {
      assert i > 0;
      LaterComplete(m, ts, path, rest, i, k);
    }
  }

  // ---------- sorting by length ----------

  ghost predicate Places(ms: seq<Matched>, sorted: seq<Matched>, pos: seq<nat>, from: nat, end: nat) {
    |pos| == |sorted| && forall k :: 0 <= k < |pos| ==>
      pos[k] < |ms| && sorted[k] == ms[pos[k]] && from <= sorted[k].length < end
  }

  ghost predicate Ordered(sorted: seq<Matched>, pos: seq<nat>) {
    |pos| == |sorted| && forall k, l :: 0 <= k < l < |pos| ==>
      sorted[k].length < sorted[l].length || (sorted[k].length == sorted[l].length && pos[k] < pos[l])
  }

  ghost predicate Complete(ms: seq<Matched>, pos: seq<nat>, from: nat, end: nat) {
    forall i: nat :: i < |ms| && from <= ms[i].length < end ==> i in pos
  }

  /** Where the entries of a sorted list stood before, for the lengths in a range. */
  ghost predicate SortedAt(ms: seq<Matched>, sorted: seq<Matched>, pos: seq<nat>, from: nat, end: nat) {
    Places(ms, sorted, pos, from, end) && Ordered(sorted, pos) && Complete(ms, pos, from, end)
  }

  lemma {:induction false} OfLengthAt(ms: seq<Matched>, n: nat) returns (pos: seq<nat>)
    ensures SortedAt(ms, OfLength(ms, n), pos, n, n + 1)
    decreases |ms|
  {
    if ms == [] {
      pos := [];
    } else {
      var rest := OfLengthAt(ms[1..], n);
      OfLengthHead(ms, n);
      hide OfLength;
      if ms[0].length == n {
        pos := [0] + Shifted(rest);
        FirstAndRest(ms, OfLength(ms[1..], n), rest, n);
      } else {
        pos := Shifted(rest);
        OnlyRest(ms, OfLength(ms[1..], n), rest, n);
      }
    }
  }

  lemma FirstAndRest(ms: seq<Matched>, sorted: seq<Matched>, rest: seq<nat>, n: nat)
    requires ms != [] && ms[0].length == n && SortedAt(ms[1..], sorted, rest, n, n + 1)
    ensures SortedAt(ms, [ms[0]] + sorted, [0] + Shifted(rest), n, n + 1)
  {
    hide Places, Ordered, Complete, Shifted;
    ShiftPlaces(ms, sorted, rest, n);
    ShiftedPositive(rest);
    FirstInPlace(ms, sorted, Shifted(rest), n);
    ShiftOrdered(sorted, rest);
    FirstOrdered(ms, sorted, Shifted(rest), n);
    ShiftComplete(ms, rest, n);
    FirstComplete(ms, Shifted(rest), n);
  }

  lemma ShiftPlaces(ms: seq<Matched>, sorted: seq<Matched>, rest: seq<nat>, n: nat)
    requires ms != [] && Places(ms[1..], sorted, rest, n, n + 1)
    ensures Places(ms, sorted, Shifted(rest), n, n + 1)
  {
    var pos := Shifted(rest);
    hide Shifted;
    forall k | 0 <= k < |pos|
      ensures pos[k] < |ms| && sorted[k] == ms[pos[k]] && sorted[k].length == n
    {
      ShiftedAt(ms, rest[k]);
    }
  }

  lemma ShiftedPositive(rest: seq<nat>)
    ensures forall k :: 0 <= k < |rest| ==> Shifted(rest)[k] > 0
  {
    hide Shifted;
  }

  lemma ShiftedAt(ms: seq<Matched>, i: nat)
    requires i < |ms| - 1
    ensures ms[1..][i] == ms[i + 1]
  {
  }

  lemma FirstInPlace(ms: seq<Matched>, sorted: seq<Matched>, pos: seq<nat>, n: nat)
    requires ms != [] && ms[0].length == n && Places(ms, sorted, pos, n, n + 1)
    ensures Places(ms, [ms[0]] + sorted, [0] + pos, n, n + 1)
  {
  }

  lemma ShiftOrdered(sorted: seq<Matched>, rest: seq<nat>)
    requires Ordered(sorted, rest)
    ensures Ordered(sorted, Shifted(rest))
  {
    hide Shifted;
  }

  lemma FirstOrdered(ms: seq<Matched>, sorted: seq<Matched>, pos: seq<nat>, n: nat)
    requires ms != [] && ms[0].length == n && Ordered(sorted, pos) && Places(ms, sorted, pos, n, n + 1)
    requires forall k :: 0 <= k < |pos| ==> pos[k] > 0
    ensures Ordered([ms[0]] + sorted, [0] + pos)
  {
    forall k, l | 0 <= k < l < |pos| + 1
      ensures ([ms[0]] + sorted)[k].length <= ([ms[0]] + sorted)[l].length
      ensures ([ms[0]] + sorted)[k].length == ([ms[0]] + sorted)[l].length ==> ([0] + pos)[k] < ([0] + pos)[l]
    {
      assert ([ms[0]] + sorted)[l] == sorted[l - 1] && ([0] + pos)[l] == pos[l - 1];
      assert k > 0 ==> ([ms[0]] + sorted)[k] == sorted[k - 1] && ([0] + pos)[k] == pos[k - 1];
    }
  }

  lemma ShiftComplete(ms: seq<Matched>, rest: seq<nat>, n: nat)
    requires ms != [] && Complete(ms[1..], rest, n, n + 1)
    ensures forall i: nat :: 0 < i < |ms| && ms[i].length == n ==> i in Shifted(rest)
  {
    hide Shifted;
    forall i: nat | 0 < i < |ms| && ms[i].length == n
      ensures i in Shifted(rest)
    {
      assert ms[i] == ms[1..][i - 1];
      assert i - 1 in rest;
    }
  }

  lemma FirstComplete(ms: seq<Matched>, pos: seq<nat>, n: nat)
    requires forall i: nat :: 0 < i < |ms| && ms[i].length == n ==> i in pos
    ensures Complete(ms, [0] + pos, n, n + 1)
  {
    assert ([0] + pos)[0] == 0;
  }

  lemma OnlyRest(ms: seq<Matched>, sorted: seq<Matched>, rest: seq<nat>, n: nat)
    requires ms != [] && ms[0].length != n && SortedAt(ms[1..], sorted, rest, n, n + 1)
    ensures SortedAt(ms, sorted, Shifted(rest), n, n + 1)
  {
    hide Places, Ordered, Shifted;
    ShiftPlaces(ms, sorted, rest, n);
    ShiftOrdered(sorted, rest);
    ShiftComplete(ms, rest, n);
  }

  lemma {:induction false} AscendingAt(ms: seq<Matched>, from: nat, end: nat) returns (pos: seq<nat>)
    ensures SortedAt(ms, Ascending(ms, from, end), pos, from, end)
    decreases end - from
  {
    if from >= end {
      pos := [];
    } else {
      var head := OfLengthAt(ms, from);
      var tail := AscendingAt(ms, from + 1, end);
      pos := head + tail;
      SortedJoin(ms, OfLength(ms, from), Ascending(ms, from + 1, end), head, tail, from, end);
    }
  }

  lemma SortedJoin(ms: seq<Matched>, a: seq<Matched>, b: seq<Matched>, head: seq<nat>, tail: seq<nat>, from: nat,
      end: nat)
    requires from < end && SortedAt(ms, a, head, from, from + 1) && SortedAt(ms, b, tail, from + 1, end)
    ensures SortedAt(ms, a + b, head + tail, from, end)
  {
    JoinPlaces(ms, a, b, head, tail, from, end);
    JoinOrdered(ms, a, b, head, tail, from, end);
    hide Places, Ordered;
  }

  lemma JoinPlaces(ms: seq<Matched>, a: seq<Matched>, b: seq<Matched>, head: seq<nat>, tail: seq<nat>, from: nat,
      end: nat)
    requires from < end && Places(ms, a, head, from, from + 1) && Places(ms, b, tail, from + 1, end)
    ensures Places(ms, a + b, head + tail, from, end)
  {
  }

  lemma JoinOrdered(ms: seq<Matched>, a: seq<Matched>, b: seq<Matched>, head: seq<nat>, tail: seq<nat>, from: nat,
      end: nat)
    requires Places(ms, a, head, from, from + 1) && Places(ms, b, tail, from + 1, end)
    requires Ordered(a, head) && Ordered(b, tail)
    ensures Ordered(a + b, head + tail)
  {
    forall k | 0 <= k < |a| + |b|
      ensures k < |a| ==> (a + b)[k] == a[k] && (head + tail)[k] == head[k]
      ensures k >= |a| ==> (a + b)[k] == b[k - |a|] && (head + tail)[k] == tail[k - |a|]
    {
    }
  }

  // ---------- the links ----------

  /** Each matching entry has one link; shorter matches come first, and equal ones in the order of registration. */
  ghost predicate LinkedAt(m: Matcher, l: Level, name: string, path: string, links: seq<Link>, idx: seq<nat>,
      lengths: seq<nat>)
  {
    var all := Candidates(l, name);
    && |idx| == |lengths| == |links|
    && (forall k :: 0 <= k < |links| ==>
         && idx[k] < |all| && links[k].target == all[idx[k]] && Hits(m, all[idx[k]], path, lengths[k])
         && links[k].path == (if k == 0 then path else path[lengths[k]..]) && links[k].asksFirst == (k > 0))
    && (forall k, j :: 0 <= k < j < |links| ==>
         lengths[k] < lengths[j] || (lengths[k] == lengths[j] && idx[k] < idx[j]))
    && forall i: nat, n :: i < |all| && Hits(m, all[i], path, n) ==> i in idx
  }

  lemma TargetsAreCandidates(l: Level, name: string)
    ensures Targets(l, name) == Candidates(l, name)
  {
    AllMountedAt(l.plugins);
    AllCallbacksAt(Registered(l, ""));
    AllCallbacksAt(Registered(l, name));
    hide AllMounted, AllCallbacks;
  }

  lemma {:induction false} ChainAt(ms: seq<Matched>, path: string, isFirst: bool)
    ensures var chain := Chain(ms, path, isFirst);
      |chain| == |ms| && forall k :: 0 <= k < |ms| ==>
        chain[k] == Link(ms[k].target, if k == 0 && isFirst then path else Suffix(path, ms[k].length),
          !(k == 0 && isFirst))
    decreases |ms|
  {
    hide Suffix;
    if ms != [] {
      ChainAt(ms[1..], path, false);
    }
  }

  function Composed(a: seq<nat>, b: seq<nat>): (r: seq<nat>)
    requires forall k :: 0 <= k < |b| ==> b[k] < |a|
    ensures |r| == |b| && forall k :: 0 <= k < |b| ==> r[k] == a[b[k]]
  {
    seq(|b|, k requires 0 <= k < |b| => a[b[k]])
  }

  function Lengths(ms: seq<Matched>): (r: seq<nat>)
    ensures |r| == |ms| && forall k :: 0 <= k < |ms| ==> r[k] == ms[k].length
  {
    seq(|ms|, k requires 0 <= k < |ms| => ms[k].length)
  }

  /**
   The chain is determined by the engine and the lists: one link for each entry that
   matches, with the path it is executed with.
   */
  lemma EveryMatchIsLinked(r: Request, p: ServerPlugin, path: string) returns (idx: seq<nat>, lengths: seq<nat>)
    ensures LinkedAt(r.matcher, p.View(), r.name, path, Links(r, p, path), idx, lengths)
  {
    var level := p.View();
    TargetsAreCandidates(level, r.name);
    var all := Candidates(level, r.name);
    var ms := Matching(r.matcher, all, path);
    var pos := MatchingAt(r.matcher, all, path);
    var order := AscendingAt(ms, 0, |path| + 1);
    var sorted := Ascending(ms, 0, |path| + 1);
    ChainAt(sorted, path, true);
    assert Links(r, p, path) == Chain(sorted, path, true);
    hide Candidates, Chain, Matching, Ascending, Links, MatchUri;
    idx, lengths := Composed(pos, order), Lengths(sorted);
    SelectedInOrder(r.matcher, all, path, ms, pos, sorted, order);
    LinksSelected(r.matcher, level, r.name, path, Links(r, p, path), sorted, idx);
  }

  /** The entries of the sorted matches, by their places among the targets. */
  ghost predicate Selected(m: Matcher, all: seq<Target>, path: string, sorted: seq<Matched>, idx: seq<nat>) {
    && |idx| == |sorted|
    && (forall k :: 0 <= k < |idx| ==>
         idx[k] < |all| && sorted[k].target == all[idx[k]] && Hits(m, all[idx[k]], path, sorted[k].length))
    && (forall k, j :: 0 <= k < j < |idx| ==>
         sorted[k].length < sorted[j].length || (sorted[k].length == sorted[j].length && idx[k] < idx[j]))
    && forall i: nat, n :: i < |all| && Hits(m, all[i], path, n) ==> i in idx
  }

  lemma SelectedInOrder(m: Matcher, all: seq<Target>, path: string, ms: seq<Matched>, pos: seq<nat>,
      sorted: seq<Matched>, order: seq<nat>)
    requires MatchesAt(m, all, path, ms, pos) && SortedAt(ms, sorted, order, 0, |path| + 1)
    ensures Selected(m, all, path, sorted, Composed(pos, order))
  {
    hide Hits;
    var idx := Composed(pos, order);
    forall i: nat, n | i < |all| && Hits(m, all[i], path, n)
      ensures i in idx
    {
      ComposedHolds(m, all, path, ms, pos, order, i, n);
    }
    assert forall k, j :: 0 <= k < j < |idx| ==> pos[order[k]] == idx[k] && pos[order[j]] == idx[j];
  }

  lemma ComposedHolds(m: Matcher, all: seq<Target>, path: string, ms: seq<Matched>, pos: seq<nat>, order: seq<nat>,
      i: nat, n: nat)
    requires MatchesAt(m, all, path, ms, pos) && Complete(ms, order, 0, |path| + 1)
    requires forall k :: 0 <= k < |order| ==> order[k] < |pos|
    requires i < |all| && Hits(m, all[i], path, n)
    ensures i in Composed(pos, order)
  {
    var k :| 0 <= k < |pos| && pos[k] == i;
    assert Hits(m, all[pos[k]], path, ms[k].length);
    var j :| 0 <= j < |order| && order[j] == k;
    assert Composed(pos, order)[j] == i;
  }

  lemma LinksSelected(m: Matcher, l: Level, name: string, path: string, links: seq<Link>, sorted: seq<Matched>,
      idx: seq<nat>)
    requires Selected(m, Candidates(l, name), path, sorted, idx) && |links| == |sorted|
    requires forall k :: 0 <= k < |links| ==>
      links[k] == Link(sorted[k].target, if k == 0 then path else Suffix(path, sorted[k].length), k > 0)
    ensures LinkedAt(m, l, name, path, links, idx, Lengths(sorted))
  {
    hide Candidates;
  }

  /** A mounted plugin that matches has a link, with the path it is executed with. */
  lemma PluginIsLinked(r: Request, p: ServerPlugin, path: string, i: nat, n: nat) returns (k: nat)
    requires i < |p.plugins| && r.matcher(p.plugins[i].uri, false, path) == Some(n)
    requires 0 < n <= |path| && (n == |path| || path[n] == '/')
    ensures var links := Links(r, p, path);
      k < |links| && links[k].target == Mounted(p.plugins[i]) && links[k].path == if k == 0 then path else path[n..]
  {
    var idx, lengths := EveryMatchIsLinked(r, p, path);
    hide Links;
    var all := Candidates(p.View(), r.name);
    assert all[i] == Mounted(p.plugins[i]);
    hide Candidates;
    k := LinkOf(r.matcher, p.View(), r.name, path, Links(r, p, path), idx, lengths, i, n);
  }

  lemma LinkOf(m: Matcher, l: Level, name: string, path: string, links: seq<Link>, idx: seq<nat>, lengths: seq<nat>,
      i: nat, n: nat)
      returns (k: nat)
    requires LinkedAt(m, l, name, path, links, idx, lengths)
    requires i < |Candidates(l, name)| && Hits(m, Candidates(l, name)[i], path, n)
    ensures k < |links| && links[k].target == Candidates(l, name)[i]
    ensures links[k].path == if k == 0 then path else path[n..]
  {
    hide Candidates;
    k :| 0 <= k < |idx| && idx[k] == i;
  }

  /** So has a callback that is listed for the method, or for all methods. */
  lemma CallbackIsLinked(r: Request, p: ServerPlugin, path: string, name: string, c: CallbackData, n: nat)
      returns (k: nat)
    requires name == "" || name == r.name
    requires name in p.methodCallbacks && c in p.methodCallbacks[name]
    requires r.matcher(c.uri, c.wholePath, path) == Some(n)
    requires 0 < n <= |path| && (n == |path| || path[n] == '/')
    ensures var links := Links(r, p, path);
      k < |links| && links[k].target == Callback(c) && links[k].path == if k == 0 then path else path[n..]
  {
    var idx, lengths := EveryMatchIsLinked(r, p, path);
    hide Links;
    var i := CallbackAt(p.View(), r.name, name, c);
    hide Candidates;
    k := LinkOf(r.matcher, p.View(), r.name, path, Links(r, p, path), idx, lengths, i, n);
  }

  lemma CallbackAt(l: Level, own: string, name: string, c: CallbackData) returns (i: nat)
    requires name == "" || name == own
    requires name in l.methods && c in l.methods[name]
    ensures i < |Candidates(l, own)| && Candidates(l, own)[i] == Callback(c)
  {
    var j :| 0 <= j < |l.methods[name]| && l.methods[name][j] == c;
    var use: seq<CallbackData> := if "" in l.methods then l.methods[""] else [];
    i := |l.plugins| + (if name == "" then 0 else |use|) + j;
  }

  /** A callback that is listed and matches is reached by the request. */
  lemma MatchIsReached(r: Request, p: ServerPlugin, d: nat, path: string, name: string, c: CallbackData, n: nat)
    requires name == "" || name == r.name
    requires name in p.methodCallbacks && c in p.methodCallbacks[name]
    requires r.matcher(c.uri, c.wholePath, path) == Some(n)
    requires 0 < n <= |path| && (n == |path| || path[n] == '/')
    ensures c in Leaves(r, p, d, path)
  {
    var k := CallbackIsLinked(r, p, path, name, c, n);
    hide Links;
    LinkIsReached(r, Links(r, p, path), d, k, c);
  }

  lemma {:induction false} LinkIsReached(r: Request, links: seq<Link>, d: nat, k: nat, c: CallbackData)
    requires k < |links| && c in TargetLeaves(r, links[k].target, d, links[k].path)
    ensures c in LinkLeaves(r, links, d)
    decreases k
  {
    hide TargetLeaves;
    if k > 0 {
      LinkIsReached(r, links[1..], d, k - 1, c);
    }
  }

  /** A callback of a mounted plugin that matches is reached if it matches what the plugin is executed with. */
  lemma MountedIsReached(r: Request, p: ServerPlugin, d: nat, path: string, i: nat, n: nat, c: CallbackData)
      returns (rest: string)
    requires d > 0 && i < |p.plugins| && r.matcher(p.plugins[i].uri, false, path) == Some(n)
    requires 0 < n <= |path| && (n == |path| || path[n] == '/')
    ensures rest == path || rest == path[n..]
    ensures c in Leaves(r, p.plugins[i].plugin, d - 1, rest) ==> c in Leaves(r, p, d, path)
  {
    hide *;
    var k := PluginIsLinked(r, p, path, i, n);
    var links := Links(r, p, path);
    rest := links[k].path;
    MountedFollows(r, p, links, d, path, i, k, c);
  }

  lemma MountedFollows(r: Request, p: ServerPlugin, links: seq<Link>, d: nat, path: string, i: nat, k: nat,
      c: CallbackData)
    requires d > 0 && links == Links(r, p, path) && k < |links| && i < |p.plugins|
    requires links[k].target == Mounted(p.plugins[i])
    ensures c in Leaves(r, p.plugins[i].plugin, d - 1, links[k].path) ==> c in Leaves(r, p, d, path)
  {
    hide Links, LinkLeaves;
    if c in Leaves(r, p.plugins[i].plugin, d - 1, links[k].path) {
      LinkIsReached(r, links, d, k, c);
    }
  }

  /** What the links before one reach comes before what it reaches, and what those behind it reach comes after. */
  lemma {:induction false} LeavesInOrder(r: Request, links: seq<Link>, d: nat, k: nat)
    requires k < |links|
    ensures LinkLeaves(r, links, d) ==
      LinkLeaves(r, links[..k], d) + TargetLeaves(r, links[k].target, d, links[k].path)
      + LinkLeaves(r, links[k + 1..], d)
    decreases k
  {
    hide TargetLeaves;
    if k == 0 {
      assert links[..0] == [];
    } else {
      LeavesInOrder(r, links[1..], d, k - 1);
      assert links[..k][0] == links[0] && links[..k][1..] == links[1..][..k - 1];
      assert links[1..][k - 1] == links[k] && links[1..][k..] == links[k + 1..];
      var first := TargetLeaves(r, links[0].target, d, links[0].path);
      Regroup(first, LinkLeaves(r, links[1..][..k - 1], d), TargetLeaves(r, links[k].target, d, links[k].path),
        LinkLeaves(r, links[k + 1..], d));
    }
  }

  lemma Regroup(a: seq<CallbackData>, b: seq<CallbackData>, c: seq<CallbackData>, e: seq<CallbackData>)
    ensures a + (b + c + e) == (a + b) + c + e
  {
  }

  /** Without plugins, the callbacks reached are those of the links, one for one. */
  lemma {:induction false} CallbacksOnly(r: Request, links: seq<Link>, d: nat)
    requires forall k :: 0 <= k < |links| ==> links[k].target.Callback?
    ensures |LinkLeaves(r, links, d)| == |links|
    ensures forall k :: 0 <= k < |links| ==> LinkLeaves(r, links, d)[k] == links[k].target.callback
    decreases |links|
  {
    if links != [] {
      CallbacksOnly(r, links[1..], d);
    }
  }

  // ---------- how often ----------

  function TargetsOf(links: seq<Link>): seq<Target> {
    if links == [] then [] else [links[0].target] + TargetsOf(links[1..])
  }

  function Times(ms: seq<Matched>, t: Target): nat {
    if ms == [] then 0 else (if ms[0].target == t then 1 else 0) + Times(ms[1..], t)
  }

  lemma {:induction false} TimesAppend(a: seq<Matched>, b: seq<Matched>, t: Target)
    ensures Times(a + b, t) == Times(a, t) + Times(b, t)
    decreases |a|
  {
    if a == [] {
      assert a + b == b;
    } else {
      assert (a + b)[0] == a[0] && (a + b)[1..] == a[1..] + b;
      TimesAppend(a[1..], b, t);
    }
  }

  lemma {:induction false} ChainTimes(ms: seq<Matched>, path: string, isFirst: bool, t: Target)
    ensures multiset(TargetsOf(Chain(ms, path, isFirst)))[t] == Times(ms, t)
    decreases |ms|
  {
    if ms != [] {
      ChainTimes(ms[1..], path, false, t);
      var chain := Chain(ms, path, isFirst);
      assert chain[0].target == ms[0].target && chain[1..] == Chain(ms[1..], path, false);
      hide Chain;
      assert TargetsOf(chain) == [ms[0].target] + TargetsOf(chain[1..]);
    }
  }

  /** All matches of one target are of one length. */
  ghost predicate OneLength(ms: seq<Matched>, t: Target, n: nat) {
    forall x :: x in ms && x.target == t ==> x.length == n
  }

  lemma {:induction false} OfLengthTimes(ms: seq<Matched>, t: Target, n: nat, k: nat)
    requires OneLength(ms, t, n)
    ensures Times(OfLength(ms, k), t) == if k == n then Times(ms, t) else 0
    decreases |ms|
  {
    if ms != [] {
      OfLengthTimes(ms[1..], t, n, k);
      OfLengthHead(ms, k);
      hide OfLength;
      if ms[0].length == k {
        TimesAppend([ms[0]], OfLength(ms[1..], k), t);
        assert [ms[0]][1..] == [];
      }
    }
  }

  lemma {:induction false} AscendingTimes(ms: seq<Matched>, t: Target, n: nat, from: nat, end: nat)
    requires OneLength(ms, t, n)
    ensures Times(Ascending(ms, from, end), t) == if from <= n < end then Times(ms, t) else 0
    decreases end - from
  {
    hide OfLength, OneLength, Times;
    if from < end {
      OfLengthTimes(ms, t, n, from);
      AscendingTimes(ms, t, n, from + 1, end);
      TimesAppend(OfLength(ms, from), Ascending(ms, from + 1, end), t);
    } else {
      NoTimes(t);
    }
  }

  lemma NoTimes(t: Target)
    ensures Times([], t) == 0
  {
  }

  lemma {:induction false} MatchingTimes(m: Matcher, ts: seq<Target>, path: string, t: Target, n: nat)
    ensures Hits(m, t, path, n) ==>
      Times(Matching(m, ts, path), t) == multiset(ts)[t] && OneLength(Matching(m, ts, path), t, n)
    ensures (forall k: nat :: !Hits(m, t, path, k)) ==>
      Times(Matching(m, ts, path), t) == 0 && OneLength(Matching(m, ts, path), t, n)
    decreases |ts|
  {
    if ts != [] {
      MatchingTimes(m, ts[1..], path, t, n);
      assert ts == [ts[0]] + ts[1..];
      var length := MatchUri(m, ts[0], path);
      forall k: nat
        ensures Hits(m, ts[0], path, k) <==> length == Some(k)
      {
        HitsIs(m, ts[0], path, k);
      }
      var k: nat := if length.Some? then length.value else 0;
      hide MatchUri, Hits, Matching;
      if length.Some? {
        MatchingSome(m, ts, path, k);
        TimesAppend([Matched(ts[0], k)], Matching(m, ts[1..], path), t);
        assert [Matched(ts[0], k)][1..] == [];
      } else {
        MatchingNone(m, ts, path);
      }
    }
  }

  lemma SortedTimes(m: Matcher, ts: seq<Target>, path: string, t: Target, n: nat)
    requires Hits(m, t, path, n) || forall k: nat :: !Hits(m, t, path, k)
    ensures Times(Ascending(Matching(m, ts, path), 0, |path| + 1), t) ==
      if Hits(m, t, path, n) then multiset(ts)[t] else 0
  {
    hide *;
    if Hits(m, t, path, n) {
      HitLength(m, t, path, n);
    }
    MatchingTimes(m, ts, path, t, n);
    AscendingTimes(Matching(m, ts, path), t, n, 0, |path| + 1);
  }

  lemma HitLength(m: Matcher, t: Target, path: string, n: nat)
    requires Hits(m, t, path, n)
    ensures n <= |path|
  {
  }

  /** A target has as many links as entries in the lists if it matches, and none if it does not. */
  lemma LinkedAsOften(r: Request, p: ServerPlugin, path: string, t: Target, n: nat)
    requires Hits(r.matcher, t, path, n) || forall k: nat :: !Hits(r.matcher, t, path, k)
    ensures multiset(TargetsOf(Links(r, p, path)))[t] ==
      if Hits(r.matcher, t, path, n) then multiset(Candidates(p.View(), r.name))[t] else 0
  {
    var level := p.View();
    TargetsAreCandidates(level, r.name);
    var sorted := InOrder(r.matcher, level, path, r.name);
    hide Hits, Candidates, Chain, Ascending, Matching, TargetsOf, Times, Targets;
    SortedTimes(r.matcher, Targets(level, r.name), path, t, n);
    ChainTimes(sorted, path, true, t);
  }

  lemma {:induction false} MountedTimes(ps: seq<PluginData>, q: PluginData, c: CallbackData)
    ensures multiset(AllMounted(ps))[Mounted(q)] == multiset(ps)[q]
    ensures multiset(AllMounted(ps))[Callback(c)] == 0
  {
    if ps != [] {
      MountedTimes(ps[1..], q, c);
      assert ps == [ps[0]] + ps[1..];
    }
  }

  lemma {:induction false} CallbackTimes(cs: seq<CallbackData>, q: PluginData, c: CallbackData)
    ensures multiset(AllCallbacks(cs))[Mounted(q)] == 0
    ensures multiset(AllCallbacks(cs))[Callback(c)] == multiset(cs)[c]
  {
    if cs != [] {
      CallbackTimes(cs[1..], q, c);
      assert cs == [cs[0]] + cs[1..];
    }
  }

  /** The entries of the lists, counted. */
  lemma CandidateTimes(l: Level, name: string, q: PluginData, c: CallbackData)
    ensures multiset(Candidates(l, name))[Mounted(q)] == multiset(l.plugins)[q]
    ensures multiset(Candidates(l, name))[Callback(c)] ==
      (if "" in l.methods then multiset(l.methods[""])[c] else 0) +
      (if name in l.methods then multiset(l.methods[name])[c] else 0)
  {
    TargetsAreCandidates(l, name);
    MountedTimes(l.plugins, q, c);
    CallbackTimes(Registered(l, ""), q, c);
    CallbackTimes(Registered(l, name), q, c);
    hide AllMounted, AllCallbacks, Candidates;
  }

  // ---------- removing ----------

  /** Removing takes every occurrence away, and leaves the others in their order. */
  lemma {:induction false} WithoutKeeps<T>(s: seq<T>, x: T) returns (pos: seq<nat>)
    ensures Picked(s, y => y != x, Without(s, x), pos)
    decreases |s|
  {
    var keep := y => y != x;
    if s == [] {
      pos := [];
    } else {
      var rest := WithoutKeeps(s[1..], x);
      hide Picked;
      if keep(s[0]) {
        pos := [0] + Shifted(rest);
        PickFirst(s, keep, Without(s[1..], x), rest);
      } else {
        pos := Shifted(rest);
        PickLater(s, keep, Without(s[1..], x), rest);
        assert Without(s, x) == Without(s[1..], x);
      }
    }
  }

  lemma {:induction false} WithoutPluginKeeps(s: seq<PluginData>, p: ServerPlugin) returns (pos: seq<nat>)
    ensures Picked(s, (y: PluginData) => y.plugin != p, WithoutPlugin(s, p), pos)
    decreases |s|
  {
    var keep := (y: PluginData) => y.plugin != p;
    if s == [] {
      pos := [];
    } else {
      var rest := WithoutPluginKeeps(s[1..], p);
      hide Picked;
      if keep(s[0]) {
        pos := [0] + Shifted(rest);
        PickFirst(s, keep, WithoutPlugin(s[1..], p), rest);
      } else {
        pos := Shifted(rest);
        PickLater(s, keep, WithoutPlugin(s[1..], p), rest);
        assert WithoutPlugin(s, p) == WithoutPlugin(s[1..], p);
      }
    }
  }

  /** What removing a callback leaves of a level: the plugins, and of each list the other callbacks, in order. */
  lemma RemovedKeeps(l: Level, c: CallbackData, name: string) returns (pos: seq<nat>)
    requires name in l.methods
    ensures Removed(l, c).plugins == l.plugins && Removed(l, c).methods.Keys == l.methods.Keys
    ensures name in Removed(l, c).methods &&
      Picked(l.methods[name], y => y != c, Removed(l, c).methods[name], pos)
  {
    pos := WithoutKeeps(l.methods[name], c);
    hide Picked, Without;
  }
}
