/**
 Route dispatch: which of the registered plugins and callbacks a request reaches, in
 which order, and when the chain ends. The regular expression engine is a function from
 a template, a path and the kind of match to the length of the match.
 */
module Dispatch {
  import opened Wrappers
  import opened RequestValues

  type Matcher = (string, bool, string) -> Option<nat>

  class CallbackData {
    const uri: string
    const wholePath: bool

    constructor (uri: string, wholePath: bool)
      ensures this.uri == uri && this.wholePath == wholePath
    {
      this.uri, this.wholePath := uri, wholePath;
    }
  }

  class PluginData {
    const uri: string
    const plugin: ServerPlugin

    constructor (uri: string, plugin: ServerPlugin)
      ensures this.uri == uri && this.plugin == plugin
    {
      this.uri, this.plugin := uri, plugin;
    }
  }

  datatype Target = Callback(callback: CallbackData) | Mounted(data: PluginData)

  /** The two lists of a plugin. The method of `use` is the empty string. */
  datatype Level = Level(plugins: seq<PluginData>, methods: map<string, seq<CallbackData>>)

  /** A match ends at the end of the path or in front of a slash, and is not empty. */
  function MatchUri(m: Matcher, t: Target, path: string): (length: Option<nat>)
    ensures length.Some? ==> 0 < length.value <= |path| && (length.value == |path| || path[length.value] == '/')
  {
    var found := match t
      case Callback(c) => m(c.uri, c.wholePath, path)
      case Mounted(p) => m(p.uri, false, path);
    match found
    case None => None
    case Some(n) => if 0 < n <= |path| && (n == |path| || path[n] == '/') then Some(n) else None
  }

  // ---------- the order ----------

  datatype Matched = Matched(target: Target, length: nat)

  function AllMounted(ps: seq<PluginData>): seq<Target> {
    if ps == [] then [] else [Mounted(ps[0])] + AllMounted(ps[1..])
  }

  function AllCallbacks(cs: seq<CallbackData>): seq<Target> {
    if cs == [] then [] else [Callback(cs[0])] + AllCallbacks(cs[1..])
  }

  function Registered(l: Level, name: string): seq<CallbackData> {
    if name in l.methods then l.methods[name] else []
  }

  /** The targets a request may reach, in the order of registration. */
  function Targets(l: Level, name: string): seq<Target> {
    AllMounted(l.plugins) + AllCallbacks(Registered(l, "")) + AllCallbacks(Registered(l, name))
  }

  function Matching(m: Matcher, ts: seq<Target>, path: string): seq<Matched> {
    if ts == [] then []
    else
      (match MatchUri(m, ts[0], path) case None => [] case Some(n) => [Matched(ts[0], n)]) + Matching(m, ts[1..], path)
  }

  function OfLength(ms: seq<Matched>, n: nat): seq<Matched> {
    if ms == [] then [] else (if ms[0].length == n then [ms[0]] else []) + OfLength(ms[1..], n)
  }

  /** The matches of length `from` or more, shorter ones first. */
  function Ascending(ms: seq<Matched>, from: nat, end: nat): seq<Matched>
    decreases end - from
  {
    if from >= end then [] else OfLength(ms, from) + Ascending(ms, from + 1, end)
  }

  function InOrder(m: Matcher, l: Level, path: string, name: string): seq<Matched> {
    Ascending(Matching(m, Targets(l, name), path), 0, |path| + 1)
  }

  ghost predicate NonDecreasing(ms: seq<Matched>) {
    forall i, j :: 0 <= i < j < |ms| ==> ms[i].length <= ms[j].length
  }

  lemma {:induction false} OfLengthAppend(a: seq<Matched>, b: seq<Matched>, n: nat)
    ensures OfLength(a + b, n) == OfLength(a, n) + OfLength(b, n)
    decreases |a|
  {
    if a == [] {
      assert a + b == b;
    } else {
      OfLengthAppend(a[1..], b, n);
      assert (a + b)[1..] == a[1..] + b;
    }
  }

  lemma OfLengthHead(ms: seq<Matched>, n: nat)
    requires ms != []
    ensures OfLength(ms, n) == if ms[0].length == n then [ms[0]] + OfLength(ms[1..], n) else OfLength(ms[1..], n)
  {
  }

  lemma {:induction false} OfLengthOfLength(ms: seq<Matched>, n: nat, k: nat)
    ensures OfLength(OfLength(ms, n), k) == if k == n then OfLength(ms, n) else []
    ensures forall i :: 0 <= i < |OfLength(ms, n)| ==> OfLength(ms, n)[i].length == n
  {
    if ms != [] {
      OfLengthOfLength(ms[1..], n, k);
      OfLengthHead(ms, n);
      var rest := OfLength(ms[1..], n);
      if ms[0].length == n {
        assert OfLength(ms, n)[1..] == rest;
        OfLengthHead(OfLength(ms, n), k);
      }
    }
  }

  ghost predicate AtLeast(ms: seq<Matched>, n: nat) {
    forall i :: 0 <= i < |ms| ==> n <= ms[i].length
  }

  lemma NonDecreasingAppend(a: seq<Matched>, n: nat, b: seq<Matched>)
    requires (forall i :: 0 <= i < |a| ==> a[i].length == n) && AtLeast(b, n + 1) && NonDecreasing(b)
    ensures NonDecreasing(a + b) && AtLeast(a + b, n)
  {
  }

  lemma {:induction false} AscendingIsSort(ms: seq<Matched>, from: nat, end: nat, k: nat)
    ensures NonDecreasing(Ascending(ms, from, end)) && AtLeast(Ascending(ms, from, end), from)
    ensures OfLength(Ascending(ms, from, end), k) == if from <= k < end then OfLength(ms, k) else []
    decreases end - from
  {
    hide OfLength, NonDecreasing, AtLeast;
    if from < end {
      AscendingIsSort(ms, from + 1, end, k);
      OfLengthOfLength(ms, from, k);
      var head, tail := OfLength(ms, from), Ascending(ms, from + 1, end);
      OfLengthAppend(head, tail, k);
      NonDecreasingAppend(head, from, tail);
    } else {
      Nothing(k, from);
    }
  }

  lemma Nothing(k: nat, from: nat)
    ensures OfLength([], k) == [] && NonDecreasing([]) && AtLeast([], from)
  {
  }

  lemma {:induction false} MatchingLengths(m: Matcher, ts: seq<Target>, path: string, n: nat)
    requires n == 0 || n > |path|
    ensures OfLength(Matching(m, ts, path), n) == []
  {
    if ts != [] {
      MatchingLengths(m, ts[1..], path, n);
      var head := match MatchUri(m, ts[0], path) case None => [] case Some(k) => [Matched(ts[0], k)];
      OfLengthAppend(head, Matching(m, ts[1..], path), n);
    }
  }

  /**
   The order is the stable sort by length: shorter matches first, and the matches of one
   length are those of the candidates in the order plugins, `use`, method, registration.
   */
  lemma OrderIsStableSort(m: Matcher, l: Level, path: string, name: string, n: nat)
    ensures NonDecreasing(InOrder(m, l, path, name))
    ensures OfLength(InOrder(m, l, path, name), n) == OfLength(Matching(m, Targets(l, name), path), n)
  {
    AscendingIsSort(Matching(m, Targets(l, name), path), 0, |path| + 1, n);
    if n > |path| {
      MatchingLengths(m, Targets(l, name), path, n);
    }
  }

  /** Being sorted and having the same matches of each length leaves only one order. */
  lemma {:induction false} StableSortIsUnique(a: seq<Matched>, b: seq<Matched>)
    requires NonDecreasing(a) && NonDecreasing(b) && forall n :: OfLength(a, n) == OfLength(b, n)
    ensures a == b
    decreases |a|
  {
    SameEmptiness(a, b);
    if a != [] {
      FirstIsLeast(a, b);
      FirstIsLeast(b, a);
      var n := a[0].length;
      assert OfLength(a, n)[0] == a[0] && OfLength(b, n)[0] == b[0];
      forall k: nat
        ensures OfLength(a[1..], k) == OfLength(b[1..], k)
      {
        assert OfLength(a, k) == OfLength(b, k);
        OfLengthHead(a, k);
        OfLengthHead(b, k);
        if k == n {
          assert OfLength(a, k)[1..] == OfLength(a[1..], k) && OfLength(b, k)[1..] == OfLength(b[1..], k);
        }
      }
      StableSortIsUnique(a[1..], b[1..]);
    }
  }

  lemma {:induction false} OfLengthMember(ms: seq<Matched>, n: nat)
    ensures OfLength(ms, n) != [] <==> exists i :: 0 <= i < |ms| && ms[i].length == n
  {
    if ms != [] {
      OfLengthMember(ms[1..], n);
      assert forall i :: 1 <= i < |ms| ==> ms[i] == ms[1..][i - 1];
    }
  }

  lemma SameEmptiness(a: seq<Matched>, b: seq<Matched>)
    requires forall n :: OfLength(a, n) == OfLength(b, n)
    ensures a == [] <==> b == []
  {
    if a != [] {
      OfLengthMember(a, a[0].length);
      OfLengthMember(b, a[0].length);
    }
    if b != [] {
      OfLengthMember(a, b[0].length);
      OfLengthMember(b, b[0].length);
    }
  }

  lemma FirstIsLeast(a: seq<Matched>, b: seq<Matched>)
    requires a != [] && b != [] && NonDecreasing(b) && OfLength(a, a[0].length) == OfLength(b, a[0].length)
    ensures b[0].length <= a[0].length
  {
    OfLengthMember(a, a[0].length);
    OfLengthMember(b, a[0].length);
  }

  // ---------- the chain of one level ----------

  /** A target with the path it is executed with, and whether it asks first if the response has been sent. */
  datatype Link = Link(target: Target, path: string, asksFirst: bool)

  function Chain(ms: seq<Matched>, path: string, isFirst: bool): seq<Link> {
    if ms == [] then []
    else
      [Link(ms[0].target, if isFirst then path else Suffix(path, ms[0].length), !isFirst)] + Chain(ms[1..], path, false)
  }

  /** What the template of a target extracts from the start of a path, if it matches there. */
  type Extractor = (string, string) -> Option<Extraction>

  /** What executing the first target makes of the values, with the fault of a target inside it. */
  type FirstTarget = (Target, Values) -> Option<Values>

  function Uri(t: Target): string {
    match t
    case Callback(c) => c.uri
    case Mounted(p) => p.uri
  }

  /** The values after a chain has been built: all targets extract theirs, the first is executed in between. */
  function Extracted(x: Extractor, chain: seq<Link>, path: string, values: Values, first: FirstTarget): Option<Values> {
    if chain == [] then Some(values)
    else
      match Save(values, x(Uri(chain[0].target), path))
      case None => None
      case Some(v) =>
        match if chain[0].asksFirst then Some(v) else first(chain[0].target, v)
        case None => None
        case Some(v') => Extracted(x, chain[1..], path, v', first)
  }

  function Suffix(path: string, n: nat): string {
    if n <= |path| then path[n..] else ""
  }

  // ---------- the plugin ----------

  function Without<T(==)>(s: seq<T>, x: T): seq<T> {
    if s == [] then [] else (if s[0] == x then [] else [s[0]]) + Without(s[1..], x)
  }

  function WithoutPlugin(s: seq<PluginData>, p: ServerPlugin): seq<PluginData> {
    if s == [] then [] else (if s[0].plugin == p then [] else [s[0]]) + WithoutPlugin(s[1..], p)
  }

  function Removed(l: Level, c: CallbackData): Level {
    Level(l.plugins, map k | k in l.methods :: Without(l.methods[k], c))
  }

  function At(callbacks: map<nat, seq<Matched>>, n: nat): seq<Matched> {
    if n in callbacks then callbacks[n] else []
  }

  /** The callbacks found so far, by the length of their match, are those of the list. */
  ghost predicate Grouped(callbacks: map<nat, seq<Matched>>, ms: seq<Matched>) {
    forall n: nat :: At(callbacks, n) == OfLength(ms, n)
  }

  lemma GroupedSnoc(callbacks: map<nat, seq<Matched>>, ms: seq<Matched>, x: Matched)
    requires Grouped(callbacks, ms)
    ensures Grouped(callbacks[x.length := At(callbacks, x.length) + [x]], ms + [x])
  {
    var callbacks' := callbacks[x.length := At(callbacks, x.length) + [x]];
    forall n: nat
      ensures At(callbacks', n) == OfLength(ms + [x], n)
    {
      OfLengthAppend(ms, [x], n);
      assert At(callbacks, n) == OfLength(ms, n);
    }
  }

  lemma {:induction false} MatchingAppend(m: Matcher, a: seq<Target>, b: seq<Target>, path: string)
    ensures Matching(m, a + b, path) == Matching(m, a, path) + Matching(m, b, path)
    decreases |a|
  {
    if a == [] {
      assert a + b == b;
    } else {
      MatchingAppend(m, a[1..], b, path);
      assert (a + b)[0] == a[0] && (a + b)[1..] == a[1..] + b;
    }
  }

  lemma {:induction false} AllMountedAt(ps: seq<PluginData>)
    ensures |AllMounted(ps)| == |ps| && forall i :: 0 <= i < |ps| ==> AllMounted(ps)[i] == Mounted(ps[i])
  {
    if ps != [] {
      AllMountedAt(ps[1..]);
    }
  }

  lemma {:induction false} AllCallbacksAt(cs: seq<CallbackData>)
    ensures |AllCallbacks(cs)| == |cs| && forall i :: 0 <= i < |cs| ==> AllCallbacks(cs)[i] == Callback(cs[i])
  {
    if cs != [] {
      AllCallbacksAt(cs[1..]);
    }
  }

  class ServerPlugin {
    var plugins: seq<PluginData>
    var methodCallbacks: map<string, seq<CallbackData>>

    function View(): Level
      reads this
    {
      Level(plugins, methodCallbacks)
    }

    constructor ()
      ensures View() == Level([], map[])
    {
      plugins, methodCallbacks := [], map[];
    }

    method AddPlugin(uri: string, plugin: ServerPlugin) returns (data: PluginData)
      modifies this
      ensures fresh(data) && data.uri == uri && data.plugin == plugin
      ensures View() == Level(old(plugins) + [data], old(methodCallbacks))
    {
      data := new PluginData(uri, plugin);
      plugins := plugins + [data];
    }

    method RemovePluginData(data: PluginData) returns (removed: bool)
      modifies this
      ensures View() == Level(Without(old(plugins), data), old(methodCallbacks))
      ensures removed == (data in old(plugins))
    {
      removed := data in plugins;
      plugins := Without(plugins, data);
    }

    method RemovePlugin(plugin: ServerPlugin) returns (removed: bool)
      modifies this
      ensures View() == Level(WithoutPlugin(old(plugins), plugin), old(methodCallbacks))
      ensures removed <==> exists i :: 0 <= i < |old(plugins)| && old(plugins)[i].plugin == plugin
    {
      removed := exists i :: 0 <= i < |plugins| && plugins[i].plugin == plugin;
      plugins := WithoutPlugin(plugins, plugin);
    }

    /** The empty path stands for the root; only callbacks of a named method are matched from the start alone. */
    method AddMethod(name: string, uri: string) returns (callback: CallbackData)
      modifies this
      ensures fresh(callback) && callback.uri == (if uri == "" then "/" else uri) && callback.wholePath == (name != "")
      ensures View() == Level(old(plugins), old(methodCallbacks)[name := Registered(old(View()), name) + [callback]])
    {
      var path := uri;
      if path == "" {
        path := "/";
      }
      callback := new CallbackData(path, name != "");
      methodCallbacks := methodCallbacks[name := Registered(View(), name) + [callback]];
    }

    method RemoveMethod(callback: CallbackData) returns (removed: bool)
      modifies this
      ensures View() == Removed(old(View()), callback)
      ensures removed <==> exists k :: k in old(methodCallbacks) && callback in old(methodCallbacks)[k]
    {
      removed := exists k :: k in methodCallbacks && callback in methodCallbacks[k];
      methodCallbacks := Removed(View(), callback).methods;
    }

    method GetCallbacksByMethod(m: Matcher, name: string, path: string, callbacks: map<nat, seq<Matched>>,
        ghost before: seq<Matched>)
      returns (found: bool, out: map<nat, seq<Matched>>)
      requires Grouped(callbacks, before)
      ensures Grouped(out, before + Matching(m, AllCallbacks(Registered(View(), name)), path))
      ensures found == (Matching(m, AllCallbacks(Registered(View(), name)), path) != [])
    {
      found, out := false, callbacks;
      assert before + [] == before;
      if name in methodCallbacks {
        var cs := methodCallbacks[name];
        ghost var ts := AllCallbacks(cs);
        AllCallbacksAt(cs);
        assert Matching(m, ts[..0], path) == [];
        hide MatchUri, Grouped, Matching, AllCallbacks, At;
        assert ts[..|cs|] == ts;
        for i := 0 to |cs|
          invariant Grouped(out, before + Matching(m, ts[..i], path))
          invariant found == (Matching(m, ts[..i], path) != [])
        {
          FoundNext(m, ts, i, path, out, before);
          var length := MatchUri(m, Callback(cs[i]), path);
          if length.Some? {
            found := true;
            out := out[length.value := At(out, length.value) + [Matched(Callback(cs[i]), length.value)]];
          }
        }
      }
    }

    /**
     Executing a request builds a chain: the first target is executed at once, the others as
     continuations. Each target extracts its values when its link is made. `first` is what
     the first target's execution makes of them; `None` is a failing assertion.
     */
    method Execute(m: Matcher, x: Extractor, path: string, name: string, values: Values, first: FirstTarget)
      returns (built: Option<(seq<Link>, Values)>)
      ensures var chain := Chain(InOrder(m, View(), path, name), path, true);
        built == match Extracted(x, chain, path, values, first) { case None => None case Some(v) => Some((chain, v)) }
    {
      var callbacks: map<nat, seq<Matched>> := map[];
      ghost var ts := AllMounted(plugins);
      AllMountedAt(plugins);
      hide MatchUri, Grouped, Chain, Ascending, Extracted;
      NothingGrouped();
      for i := 0 to |plugins|
        invariant Grouped(callbacks, Matching(m, ts[..i], path))
      {
        MatchingSnoc(m, ts, i, path);
        var length := MatchUri(m, Mounted(plugins[i]), path);
        if length.Some? {
          var x := Matched(Mounted(plugins[i]), length.value);
          GroupedSnoc(callbacks, Matching(m, ts[..i], path), x);
          callbacks := callbacks[x.length := At(callbacks, x.length) + [x]];
        }
      }
      assert ts[..|plugins|] == ts;
      ghost var ms := Matching(m, ts, path);
      var _, withUse := GetCallbacksByMethod(m, "", path, callbacks, ms);
      ghost var ms' := ms + Matching(m, AllCallbacks(Registered(View(), "")), path);
      var _, all := GetCallbacksByMethod(m, name, path, withUse, ms');
      ghost var ms'' := ms' + Matching(m, AllCallbacks(Registered(View(), name)), path);
      TargetsMatching(m, View(), path, name);
      built := BuildChain(x, all, path, values, first, ms'');
    }
  }

  lemma NothingGrouped()
    ensures Grouped(map[], [])
  {
  }

  lemma MatchingSnoc(m: Matcher, ts: seq<Target>, i: nat, path: string)
    requires i < |ts|
    ensures Matching(m, ts[..i + 1], path) ==
      match MatchUri(m, ts[i], path) {
        case None => Matching(m, ts[..i], path)
        case Some(n) => Matching(m, ts[..i], path) + [Matched(ts[i], n)]
      }
  {
    hide MatchUri;
    assert ts[..i + 1] == ts[..i] + [ts[i]];
    MatchingAppend(m, ts[..i], [ts[i]], path);
    assert [ts[i]][1..] == [] && Matching(m, ts[..i], path) + [] == Matching(m, ts[..i], path);
  }

  /** One more target: either it does not match, or its match goes to the end of the list for its length. */
  lemma FoundNext(m: Matcher, ts: seq<Target>, i: nat, path: string, callbacks: map<nat, seq<Matched>>,
      before: seq<Matched>)
    requires i < |ts| && Grouped(callbacks, before + Matching(m, ts[..i], path))
    ensures match MatchUri(m, ts[i], path) {
      case None => Matching(m, ts[..i + 1], path) == Matching(m, ts[..i], path)
      case Some(n) =>
        Matching(m, ts[..i + 1], path) != [] &&
        Grouped(callbacks[n := At(callbacks, n) + [Matched(ts[i], n)]], before + Matching(m, ts[..i + 1], path))
    }
  {
    hide MatchUri, Grouped, Matching, At;
    MatchingSnoc(m, ts, i, path);
    var length := MatchUri(m, ts[i], path);
    if length.Some? {
      var x := Matched(ts[i], length.value);
      GroupedSnoc(callbacks, before + Matching(m, ts[..i], path), x);
      assert before + Matching(m, ts[..i], path) + [x] == before + (Matching(m, ts[..i], path) + [x]);
    }
  }

  lemma TargetsMatching(m: Matcher, l: Level, path: string, name: string)
    ensures Matching(m, Targets(l, name), path) ==
      Matching(m, AllMounted(l.plugins), path) + Matching(m, AllCallbacks(Registered(l, "")), path)
      + Matching(m, AllCallbacks(Registered(l, name)), path)
  {
    MatchingAppend(m, AllMounted(l.plugins), AllCallbacks(Registered(l, "")), path);
    MatchingAppend(m, AllMounted(l.plugins) + AllCallbacks(Registered(l, "")), AllCallbacks(Registered(l, name)), path);
  }

  lemma ChainStep(chain: seq<Link>, list: seq<Matched>, j: nat, later: seq<Matched>, path: string, isFirst: bool)
    requires j < |list|
    ensures var link := Link(list[j].target, if isFirst then path else Suffix(path, list[j].length), !isFirst);
      chain + Chain(list[j..] + later, path, isFirst) == (chain + [link]) + Chain(list[j + 1..] + later, path, false)
  {
    var rest := list[j..] + later;
    assert rest[0] == list[j] && rest[1..] == list[j + 1..] + later;
    hide Suffix;
    assert Chain(rest, path, isFirst) ==
      [Link(list[j].target, if isFirst then path else Suffix(path, list[j].length), !isFirst)] + Chain(rest[1..],
        path, false);
  }

  lemma ExtractedStep(x: Extractor, link: Link, rest: seq<Link>, path: string, values: Values, first: FirstTarget)
    ensures Extracted(x, [link] + rest, path, values, first) ==
      match Save(values, x(Uri(link.target), path)) {
        case None => None
        case Some(v) =>
          match if link.asksFirst then Some(v) else first(link.target, v) {
            case None => None
            case Some(v') => Extracted(x, rest, path, v', first)
          }
      }
  {
    assert ([link] + rest)[1..] == rest;
  }

  /** One more link: its target extracts its values, and is executed if it is the first. */
  lemma LinkStep(x: Extractor, list: seq<Matched>, j: nat, later: seq<Matched>, path: string, isFirst: bool,
      values: Values, first: FirstTarget)
    requires j < |list|
    ensures var t := list[j].target;
      Extracted(x, Chain(list[j..] + later, path, isFirst), path, values, first) ==
        match Save(values, x(Uri(t), path)) {
          case None => None
          case Some(v) =>
            match if isFirst then first(t, v) else Some(v) {
              case None => None
              case Some(v') => Extracted(x, Chain(list[j + 1..] + later, path, false), path, v', first)
            }
        }
  {
    hide Extracted, Save, Suffix;
    var rest := list[j..] + later;
    assert rest[0] == list[j] && rest[1..] == list[j + 1..] + later;
    ExtractedStep(x, Link(list[j].target, if isFirst then path else Suffix(path, list[j].length), !isFirst),
      Chain(rest[1..], path, false), path, values, first);
  }

  datatype Building = Building(chain: seq<Link>, values: Values, isFirst: bool)

  /** The links for the callbacks of one length; `later` are those of larger lengths. */
  method AddLinks(x: Extractor, list: seq<Matched>, path: string, b: Building, first: FirstTarget,
      ghost later: seq<Matched>)
    returns (r: Option<Building>)
    ensures match r
      case None => Extracted(x, Chain(list + later, path, b.isFirst), path, b.values, first) == None
      case Some(b') =>
        && b'.chain + Chain(later, path, b'.isFirst) == b.chain + Chain(list + later, path, b.isFirst)
        && Extracted(x, Chain(later, path, b'.isFirst), path, b'.values, first)
             == Extracted(x, Chain(list + later, path, b.isFirst), path, b.values, first)
  {
    var chain, values, isFirst := b.chain, b.values, b.isFirst;
    assert list[0..] == list;
    hide Chain, Suffix, Extracted, Save;
    for j := 0 to |list|
      invariant chain + Chain(list[j..] + later, path, isFirst) == b.chain + Chain(list + later, path, b.isFirst)
      invariant Extracted(x, Chain(list[j..] + later, path, isFirst), path, values, first)
        == Extracted(x, Chain(list + later, path, b.isFirst), path, b.values, first)
    {
      ChainStep(chain, list, j, later, path, isFirst);
      LinkStep(x, list, j, later, path, isFirst, values, first);
      var saved := Save(values, x(Uri(list[j].target), path));
      if saved.None? {
        return None;
      }
      values := saved.value;
      chain := chain + [Link(list[j].target, if isFirst then path else Suffix(path, list[j].length), !isFirst)];
      if isFirst {
        isFirst := false;
        var executed := first(list[j].target, values);
        if executed.None? {
          return None;
        }
        values := executed.value;
      }
    }
    assert list[|list|..] + later == later;
    r := Some(Building(chain, values, isFirst));
  }

  lemma NoLinks(chain: seq<Link>, ms: seq<Matched>, n: nat, path: string, isFirst: bool)
    ensures chain + Chain(Ascending(ms, n, n), path, isFirst) == chain
  {
    assert chain + [] == chain;
  }

  lemma NothingExtracted(x: Extractor, ms: seq<Matched>, n: nat, path: string, b: Building, first: FirstTarget)
    ensures Extracted(x, Chain(Ascending(ms, n, n), path, b.isFirst), path, b.values, first) == Some(b.values)
  {
  }

  lemma NoLinksYet(all: seq<Link>)
    ensures [] + all == all
  {
  }

  lemma NextLength(callbacks: map<nat, seq<Matched>>, ms: seq<Matched>, n: nat, end: nat)
    requires Grouped(callbacks, ms) && n < end
    ensures Ascending(ms, n, end) == At(callbacks, n) + Ascending(ms, n + 1, end)
  {
    hide OfLength, At;
    assert At(callbacks, n) == OfLength(ms, n);
  }

  /** The loop over the callbacks by ascending length. */
  method BuildChain(x: Extractor, callbacks: map<nat, seq<Matched>>, path: string, values: Values, first: FirstTarget,
      ghost ms: seq<Matched>)
    returns (built: Option<(seq<Link>, Values)>)
    requires Grouped(callbacks, ms)
    ensures var chain := Chain(Ascending(ms, 0, |path| + 1), path, true);
      built == match Extracted(x, chain, path, values, first) { case None => None case Some(v) => Some((chain, v)) }
  {
    var b := Building([], values, true);
    ghost var all := Chain(Ascending(ms, 0, |path| + 1), path, true);
    hide Chain, Ascending, OfLength, At, Grouped, Extracted;
    NoLinksYet(all);
    for n := 0 to |path| + 1
      invariant b.chain + Chain(Ascending(ms, n, |path| + 1), path, b.isFirst) == all
      invariant Extracted(x, Chain(Ascending(ms, n, |path| + 1), path, b.isFirst), path, b.values, first)
        == Extracted(x, all, path, values, first)
    {
      NextLength(callbacks, ms, n, |path| + 1);
      var added := AddLinks(x, At(callbacks, n), path, b, first, Ascending(ms, n + 1, |path| + 1));
      if added.None? {
        return None;
      }
      b := added.value;
    }
    NoLinks(b.chain, ms, |path| + 1, path, b.isFirst);
    NothingExtracted(x, ms, |path| + 1, path, b, first);
    built := Some((b.chain, b.values));
  }
}
