/**
 Reading the values of a matched URI out of the capturing groups. The groups come as
 one flat list; which of them belongs to which parameter, through any nesting of
 formats, is decided by counting alone.
 */
module TemplateExtract {
  import opened Wrappers
  import opened RegexSyntax
  import opened RegexMatch
  import opened TemplateLexer
  import opened TemplateCompiler
  import opened TemplateMeaning

  /** Values, and the position of the next group. None is a failed assertion or a read past the last group. */
  type Saved = Option<(seq<Node>, nat)>

  /** Formats that exist have a rank below k: what makes the recursion end. */
  ghost predicate Reaches(reg: Registry, k: nat, formats: seq<string>) {
    forall i :: 0 <= i < |formats| ==> FormatReaches(reg, k, formats[i])
  }

  ghost predicate FormatReaches(reg: Registry, k: nat, format: string) {
    format != "" && Find(reg, format).Some? ==> Find(reg, format).value < k
  }

  lemma BelowReaches(reg: Registry, k: nat, formats: seq<string>)
    requires Below(reg, k, formats)
    ensures Reaches(reg, k, formats)
  {
    hide Find;
    forall i | 0 <= i < |formats|
      ensures FormatReaches(reg, k, formats[i])
    {
      assert Resolves(reg, k, formats[i]);
    }
  }

  lemma BodyReaches(reg: Registry, m: nat)
    requires Built(reg) && m < |reg|
    ensures Reaches(reg, m, reg[m].body.formats) && |reg[m].body.params| == |reg[m].body.formats|
  {
    RanksDecrease(reg, m);
    BelowReaches(reg, m, reg[m].body.formats);
  }

  // ---------- the specification ----------

  function Values(reg: Registry, k: nat, results: seq<string>, pos: nat, params: seq<string>,
      formats: seq<string>): Saved
    requires Built(reg) && k <= |reg| && Reaches(reg, k, formats) && |params| == |formats|
    decreases k, |params| + 1, 1
  {
    if |results| < pos + |params| then None else ValuesFrom(reg, k, results, pos, params, formats, {})
  }

  /** The remaining parameters, when children named in `used` have been added. */
  function ValuesFrom(reg: Registry, k: nat, results: seq<string>, pos: nat, params: seq<string>,
      formats: seq<string>, used: set<string>): Saved
    requires Built(reg) && k <= |reg| && Reaches(reg, k, formats) && |params| == |formats|
    decreases k, |params| + 1, 0
  {
    if params == [] then Some(([], pos))
    else if pos >= |results| || params[0] in used then None
    else
      assert FormatReaches(reg, k, formats[0]);
      match Inner(reg, k, results, pos + 1, formats[0])
      case None => None
      case Some((children, pos')) =>
        assert forall i :: 0 <= i < |formats[1..]| ==> formats[1..][i] == formats[i + 1];
        match ValuesFrom(reg, k, results, pos', params[1..], formats[1..], used + {params[0]})
        case None => None
        case Some((rest, end)) => Some(([Node(params[0], results[pos], children)] + rest, end))
  }

  /** The values inside a parameter; a format without parameters has none. */
  function Inner(reg: Registry, k: nat, results: seq<string>, pos: nat, format: string): Saved
    requires Built(reg) && k <= |reg| && FormatReaches(reg, k, format)
    decreases k, 0
  {
    if format == "" then Some(([], pos))
    else
      match Find(reg, format)
      case None => None
      case Some(m) =>
        BodyReaches(reg, m);
        if |reg[m].body.params| == 0 then Some(([], pos))
        else Values(reg, m, results, pos, reg[m].body.params, reg[m].body.formats)
  }

  // ---------- saveValues ----------

  /** Nodes put before the values that are still to come. */
  function Before(done: seq<Node>, rest: Saved): Saved {
    match rest
    case None => None
    case Some((nodes, end)) => Some((done + nodes, end))
  }

  method SaveValues(reg: Registry, ghost k: nat, results: seq<string>, ioPosition: nat, params: seq<string>,
      formats: seq<string>)
    returns (r: Saved)
    requires Built(reg) && k <= |reg| && Reaches(reg, k, formats) && |params| == |formats|
    ensures r == Values(reg, k, results, ioPosition, params, formats)
    decreases k
  {
    if |results| < ioPosition + |params| {
      return None;
    }
    var children, position: nat, names, i := [], ioPosition, {}, 0;
    assert params[0..] == params && formats[0..] == formats;
    ghost var all := ValuesFrom(reg, k, results, ioPosition, params, formats, {});
    BeforeNothing(all);
    hide Values, Find, ValuesFrom, Inner, Reaches, FormatReaches, Before;
    while i < |params|
      invariant 0 <= i <= |params| && Reaches(reg, k, formats[i..])
      invariant Before(children, ValuesFrom(reg, k, results, position, params[i..], formats[i..], names)) == all
    {
      RestOfLists(reg, k, params, formats, i);
      ValuesStep(reg, k, results, position, params[i..], formats[i..], names);
      if position >= |results| || params[i] in names {
        BeforeNone(children);
        return None;
      }
      var value, name, formatName := results[position], params[i], formats[i];
      var inner := SaveInner(reg, k, results, position + 1, formatName);
      if inner.None? {
        BeforeNone(children);
        return None;
      }
      ghost var rest := ValuesFrom(reg, k, results, inner.value.1, params[i + 1..], formats[i + 1..], names + {name});
      BeforeStep(children, Node(name, value, inner.value.0), rest);
      children := children + [Node(name, value, inner.value.0)];
      names := names + {name};
      position := inner.value.1;
      i := i + 1;
    }
    r := Some((children, position));
    NoParameters(reg, k, results, position, params[i..], formats[i..], names);
    BeforeEnd(children, position);
  }

  lemma BeforeNone(done: seq<Node>)
    ensures Before(done, None) == None
  {
  }

  lemma BeforeEnd(done: seq<Node>, position: nat)
    ensures Before(done, Some(([], position))) == Some((done, position))
  {
    assert done + [] == done;
  }

  lemma NoParameters(reg: Registry, k: nat, results: seq<string>, pos: nat, params: seq<string>, formats: seq<string>,
      used: set<string>)
    requires Built(reg) && k <= |reg| && Reaches(reg, k, formats) && |params| == |formats| == 0
    ensures ValuesFrom(reg, k, results, pos, params, formats, used) == Some(([], pos))
  {
  }

  lemma ValuesStep(reg: Registry, k: nat, results: seq<string>, pos: nat, params: seq<string>, formats: seq<string>,
      used: set<string>)
    requires Built(reg) && k <= |reg| && Reaches(reg, k, formats) && |params| == |formats| && params != []
    ensures FormatReaches(reg, k, formats[0]) && Reaches(reg, k, formats[1..])
    ensures ValuesFrom(reg, k, results, pos, params, formats, used) ==
      if pos >= |results| || params[0] in used then None else
      match Inner(reg, k, results, pos + 1, formats[0])
      case None => None
      case Some((children, pos')) =>
        Before([Node(params[0], results[pos], children)],
               ValuesFrom(reg, k, results, pos', params[1..], formats[1..], used + {params[0]}))
  {
    ReachesRest(reg, k, formats);
    assert FormatReaches(reg, k, formats[0]);
    hide Inner, Reaches, FormatReaches, Built;
  }

  lemma RestOfLists(reg: Registry, k: nat, params: seq<string>, formats: seq<string>, i: nat)
    requires i < |params| == |formats| && Reaches(reg, k, formats[i..])
    ensures params[i..][0] == params[i] && formats[i..][0] == formats[i]
    ensures params[i..][1..] == params[i + 1..] && formats[i..][1..] == formats[i + 1..]
  {
  }

  method SaveInner(reg: Registry, ghost k: nat, results: seq<string>, position: nat, format: string) returns (r: Saved)
    requires Built(reg) && k <= |reg| && FormatReaches(reg, k, format)
    ensures r == Inner(reg, k, results, position, format)
    decreases k, 0
  {
    if format == "" {
      return Some(([], position));
    }
    var found := Find(reg, format);
    if found.None? {
      return None;
    }
    var m := found.value;
    BodyReaches(reg, m);
    if |reg[m].body.params| == 0 {
      return Some(([], position));
    }
    r := SaveValues(reg, m, results, position, reg[m].body.params, reg[m].body.formats);
  }

  lemma ReachesRest(reg: Registry, k: nat, formats: seq<string>)
    requires Reaches(reg, k, formats) && formats != []
    ensures Reaches(reg, k, formats[1..])
  {
    hide FormatReaches;
    assert forall i :: 0 <= i < |formats[1..]| ==> formats[1..][i] == formats[i + 1];
  }

  lemma BeforeNothing(rest: Saved)
    ensures Before([], rest) == rest
  {
    if rest.Some? {
      assert [] + rest.value.0 == rest.value.0;
    }
  }

  lemma BeforeStep(done: seq<Node>, node: Node, rest: Saved)
    ensures Before(done, Before([node], rest)) == Before(done + [node], rest)
  {
    if rest.Some? {
      assert done + ([node] + rest.value.0) == done + [node] + rest.value.0;
    }
  }

  // ---------- every group is visited, in preorder ----------

  /** The groups that parameters of these formats contribute to an extract pattern. */
  function Groups(reg: Registry, k: nat, formats: seq<string>): (n: nat)
    requires Built(reg) && k <= |reg| && Below(reg, k, formats)
    ensures n >= |formats|
    decreases k, |formats| + 1
  {
    if formats == [] then 0
    else
      BelowRest(reg, k, formats);
      1 + GroupsInside(reg, k, formats[0]) + Groups(reg, k, formats[1..])
  }

  function GroupsInside(reg: Registry, k: nat, format: string): nat
    requires Built(reg) && k <= |reg| && Resolves(reg, k, format)
    decreases k, 0
  {
    if format == "" then 0
    else
      var m := Find(reg, format).value;
      RanksDecrease(reg, m);
      Groups(reg, m, reg[m].body.formats)
  }

  lemma BelowRest(reg: Registry, k: nat, formats: seq<string>)
    requires Below(reg, k, formats) && formats != []
    ensures Resolves(reg, k, formats[0]) && Below(reg, k, formats[1..])
  {
    hide Resolves;
    assert forall i :: 0 <= i < |formats[1..]| ==> formats[1..][i] == formats[i + 1];
  }

  /** The nodes carry the parameters' names, and so do the nodes inside them. */
  ghost predicate Shaped(reg: Registry, k: nat, params: seq<string>, formats: seq<string>, nodes: seq<Node>)
    requires Built(reg) && k <= |reg| && Below(reg, k, formats) && |params| == |formats|
    decreases k, |params| + 1
  {
    if params == [] then nodes == []
    else
      BelowRest(reg, k, formats);
      nodes != [] && nodes[0].name == params[0] &&
      ShapedInside(reg, k, formats[0], nodes[0].children) && Shaped(reg, k, params[1..], formats[1..], nodes[1..])
  }

  ghost predicate ShapedInside(reg: Registry, k: nat, format: string, children: seq<Node>)
    requires Built(reg) && k <= |reg| && Resolves(reg, k, format)
    decreases k, 0
  {
    if format == "" then children == []
    else
      var m := Find(reg, format).value;
      RanksDecrease(reg, m);
      Shaped(reg, m, reg[m].body.params, reg[m].body.formats, children)
  }

  predicate Distinct(params: seq<string>, used: set<string>) {
    params == [] || (params[0] !in used && Distinct(params[1..], used + {params[0]}))
  }

  lemma {:induction false} ParamsDistinct(reg: Registry, s: string, seen: set<string>)
    requires CompileFrom(reg, s, seen).Some?
    ensures Distinct(CompileFrom(reg, s, seen).value.params, seen)
    decreases |s|
  {
    hide Rest, BodyOf, Next;
    if Next(s).Some? {
      ParamsDistinct(reg, Rest(s), seen + {Next(s).value.name});
    }
  }

  /** The groups [pos..end] of the results, in order, are the values of the nodes read. */
  ghost predicate ReadsAll(results: seq<string>, pos: nat, saved: Saved, n: nat) {
    && pos + n <= |results| && saved.Some? && saved.value.1 == pos + n
    && Flatten(saved.value.0) == results[pos..pos + n]
  }

  /**
   With one group for every parameter, nested ones included, no assertion fails and each
   group is read once, in order.
   */
  lemma {:induction false} EveryGroupIsRead(reg: Registry, k: nat, results: seq<string>, pos: nat,
      params: seq<string>, formats: seq<string>, used: set<string>)
    requires Built(reg) && k <= |reg| && Below(reg, k, formats) && |params| == |formats| && Distinct(params, used)
    requires pos + Groups(reg, k, formats) <= |results|
    ensures Reaches(reg, k, formats)
    ensures var saved := ValuesFrom(reg, k, results, pos, params, formats, used);
      ReadsAll(results, pos, saved, Groups(reg, k, formats)) && Shaped(reg, k, params, formats, saved.value.0)
    decreases k, |params| + 1
  {
    hide Shaped, ShapedInside, Groups, GroupsInside, ReadsAll, ValuesFrom, Inner, Before, Built, Below, Resolves,
      Reaches, FormatReaches, Distinct, Flatten, Find;
    BelowReaches(reg, k, formats);
    if params == [] {
      NoGroups(reg, k, results, pos, params, formats, used);
    } else {
      GroupsStep(reg, k, formats);
      DistinctRest(params, used);
      FirstReaches(reg, k, formats);
      var n := GroupsInside(reg, k, formats[0]);
      InsideIsRead(reg, k, results, pos + 1, formats[0]);
      EveryGroupIsRead(reg, k, results, pos + 1 + n, params[1..], formats[1..], used + {params[0]});
      StepIsRead(reg, k, results, pos, params, formats, used);
    }
  }

  lemma FirstReaches(reg: Registry, k: nat, formats: seq<string>)
    requires Reaches(reg, k, formats) && formats != []
    ensures FormatReaches(reg, k, formats[0])
  {
  }

  /** The first parameter and its inside are read, then the rest. */
  lemma StepIsRead(reg: Registry, k: nat, results: seq<string>, pos: nat, params: seq<string>, formats: seq<string>,
      used: set<string>)
    requires Built(reg) && k <= |reg| && |params| == |formats| && params != [] && params[0] !in used && pos < |results|
    requires Below(reg, k, formats) && Reaches(reg, k, formats)
    requires Resolves(reg, k, formats[0]) && FormatReaches(reg, k, formats[0])
    requires Below(reg, k, formats[1..]) && Reaches(reg, k, formats[1..])
    requires var n, inner := GroupsInside(reg, k, formats[0]), Inner(reg, k, results, pos + 1, formats[0]);
      ReadsAll(results, pos + 1, inner, n) && ShapedInside(reg, k, formats[0], inner.value.0)
    requires var n := pos + 1 + GroupsInside(reg, k, formats[0]);
      var rest := ValuesFrom(reg, k, results, n, params[1..], formats[1..], used + {params[0]});
      ReadsAll(results, n, rest, Groups(reg, k, formats[1..])) && Shaped(reg, k, params[1..], formats[1..],
        rest.value.0)
    ensures var saved := ValuesFrom(reg, k, results, pos, params, formats, used);
      ReadsAll(results, pos, saved, Groups(reg, k, formats)) && Shaped(reg, k, params, formats, saved.value.0)
  {
    hide Shaped, ShapedInside, Groups, GroupsInside, ReadsAll, Values, ValuesFrom, Inner, Before, Built, Below,
      Resolves, Reaches, FormatReaches, Distinct, Flatten, Find;
    ValuesStep(reg, k, results, pos, params, formats, used);
    GroupsStep(reg, k, formats);
    var n, n' := GroupsInside(reg, k, formats[0]), Groups(reg, k, formats[1..]);
    var inner := Inner(reg, k, results, pos + 1, formats[0]);
    Reading(results, pos + 1, inner, n);
    var rest := ValuesFrom(reg, k, results, pos + 1 + n, params[1..], formats[1..], used + {params[0]});
    Reading(results, pos + 1 + n, rest, n');
    var node := Node(params[0], results[pos], inner.value.0);
    ReadsCons(results, pos, node, n, rest, n');
    ShapedCons(reg, k, params, formats, node, rest.value.0);
    BeforeIs([node], rest);
  }

  lemma NoGroups(reg: Registry, k: nat, results: seq<string>, pos: nat, params: seq<string>, formats: seq<string>,
      used: set<string>)
    requires Built(reg) && k <= |reg| && Below(reg, k, formats) && |params| == |formats| == 0 &&
      Reaches(reg, k, formats)
    requires pos + Groups(reg, k, formats) <= |results|
    ensures var saved := ValuesFrom(reg, k, results, pos, params, formats, used);
      ReadsAll(results, pos, saved, Groups(reg, k, formats)) && Shaped(reg, k, params, formats, saved.value.0)
  {
  }

  lemma Reading(results: seq<string>, pos: nat, saved: Saved, n: nat)
    requires ReadsAll(results, pos, saved, n)
    ensures saved.Some? && saved.value.1 == pos + n <= |results|
  {
  }

  lemma BeforeIs(done: seq<Node>, rest: Saved)
    requires rest.Some?
    ensures Before(done, rest).Some? && Before(done, rest).value.0 == done + rest.value.0
  {
  }

  lemma DistinctRest(params: seq<string>, used: set<string>)
    requires Distinct(params, used) && params != []
    ensures params[0] !in used && Distinct(params[1..], used + {params[0]})
  {
  }

  lemma GroupsStep(reg: Registry, k: nat, formats: seq<string>)
    requires Built(reg) && k <= |reg| && Below(reg, k, formats) && formats != []
    ensures Resolves(reg, k, formats[0]) && Below(reg, k, formats[1..])
    ensures Groups(reg, k, formats) == 1 + GroupsInside(reg, k, formats[0]) + Groups(reg, k, formats[1..])
  {
    BelowRest(reg, k, formats);
    hide GroupsInside, Built, Below, Resolves;
  }

  lemma ReadsCons(results: seq<string>, pos: nat, node: Node, n: nat, rest: Saved, n': nat)
    requires pos < |results| && node.value == results[pos]
    requires ReadsAll(results, pos + 1, Some((node.children, pos + 1 + n)), n) &&
      ReadsAll(results, pos + 1 + n, rest, n')
    ensures ReadsAll(results, pos, Before([node], rest), 1 + n + n')
  {
    FlattenCons(node, rest.value.0);
    hide Flatten;
    var end := pos + 1 + n + n';
    SlicesJoin(results, pos, pos + 1 + n, end);
  }

  lemma SlicesJoin(results: seq<string>, pos: nat, mid: nat, end: nat)
    requires pos < mid <= end <= |results|
    ensures results[pos..end] == [results[pos]] + (results[pos + 1..mid] + results[mid..end])
  {}

  lemma ShapedCons(reg: Registry, k: nat, params: seq<string>, formats: seq<string>, node: Node, rest: seq<Node>)
    requires Built(reg) && k <= |reg| && Below(reg, k, formats) && |params| == |formats| && params != []
    requires Resolves(reg, k, formats[0]) && Below(reg, k, formats[1..])
    requires node.name == params[0] && ShapedInside(reg, k, formats[0], node.children)
    requires Shaped(reg, k, params[1..], formats[1..], rest)
    ensures Shaped(reg, k, params, formats, [node] + rest)
  {
    var nodes := [node] + rest;
    assert nodes[0] == node && nodes[1..] == rest;
    hide ShapedInside, Built, Below, Resolves;
  }

  lemma {:induction false} InsideIsRead(reg: Registry, k: nat, results: seq<string>, pos: nat, format: string)
    requires Built(reg) && k <= |reg| && Resolves(reg, k, format) && FormatReaches(reg, k, format)
    requires pos + GroupsInside(reg, k, format) <= |results|
    ensures var saved := Inner(reg, k, results, pos, format);
      ReadsAll(results, pos, saved, GroupsInside(reg, k, format)) && ShapedInside(reg, k, format, saved.value.0)
    decreases k, 0
  {
    if format != "" {
      var m := Find(reg, format).value;
      RanksDecrease(reg, m);
      BodyReaches(reg, m);
      ParamsDistinct(reg[..m], reg[m].body.template, {});
      EveryGroupIsRead(reg, m, results, pos, reg[m].body.params, reg[m].body.formats, {});
    }
  }

  /** Only one tree of a given shape has given values. */
  lemma {:induction false} TreeIsUnique(reg: Registry, k: nat, params: seq<string>, formats: seq<string>,
      nodes: seq<Node>, nodes': seq<Node>)
    requires Built(reg) && k <= |reg| && Below(reg, k, formats) && |params| == |formats|
    requires Shaped(reg, k, params, formats, nodes) && Shaped(reg, k, params, formats, nodes')
    requires Flatten(nodes) == Flatten(nodes')
    ensures nodes == nodes'
    decreases k, |params| + 1
  {
    hide Shaped, ShapedInside, Groups, GroupsInside, Built, Below, Resolves, Flatten;
    if params == [] {
      NothingInside(reg, k, params, formats, nodes);
      NothingInside(reg, k, params, formats, nodes');
    } else {
      ShapedStep(reg, k, params, formats, nodes);
      ShapedStep(reg, k, params, formats, nodes');
      FlattenStep(nodes);
      FlattenStep(nodes');
      ShapedCount(reg, k, params[1..], formats[1..], nodes[1..]);
      ShapedCount(reg, k, params[1..], formats[1..], nodes'[1..]);
      SamePieces(Flatten(nodes), nodes[0].value, Flatten(nodes[0].children), Flatten(nodes[1..]),
                 nodes'[0].value, Flatten(nodes'[0].children), Flatten(nodes'[1..]));
      InsideIsUnique(reg, k, formats[0], nodes[0].children, nodes'[0].children);
      TreeIsUnique(reg, k, params[1..], formats[1..], nodes[1..], nodes'[1..]);
      assert nodes == [nodes[0]] + nodes[1..] && nodes' == [nodes'[0]] + nodes'[1..];
    }
  }

  lemma NothingInside(reg: Registry, k: nat, params: seq<string>, formats: seq<string>, nodes: seq<Node>)
    requires Built(reg) && k <= |reg| && Below(reg, k, formats) && |params| == |formats| == 0
    ensures Shaped(reg, k, params, formats, nodes) <==> nodes == []
  {
  }

  lemma {:induction false} InsideIsUnique(reg: Registry, k: nat, format: string, nodes: seq<Node>, nodes': seq<Node>)
    requires Built(reg) && k <= |reg| && Resolves(reg, k, format)
    requires ShapedInside(reg, k, format, nodes) && ShapedInside(reg, k, format, nodes')
    requires Flatten(nodes) == Flatten(nodes')
    ensures nodes == nodes'
    decreases k, 0
  {
    if format != "" {
      var m := Find(reg, format).value;
      RanksDecrease(reg, m);
      TreeIsUnique(reg, m, reg[m].body.params, reg[m].body.formats, nodes, nodes');
    }
  }

  lemma SamePieces(s: seq<string>, a: string, b: seq<string>, c: seq<string>, a': string, b': seq<string>,
      c': seq<string>)
    requires s == [a] + (b + c) == [a'] + (b' + c') && |c| == |c'|
    ensures a == a' && b == b' && c == c'
  {
    var n := |s| - |c|;
    assert s[0] == a && s[0] == a';
    assert s[1..n] == b && s[1..n] == b' && s[n..] == c && s[n..] == c';
  }

  lemma ShapedStep(reg: Registry, k: nat, params: seq<string>, formats: seq<string>, nodes: seq<Node>)
    requires Built(reg) && k <= |reg| && Below(reg, k, formats) && |params| == |formats| && params != []
    requires Shaped(reg, k, params, formats, nodes)
    ensures Resolves(reg, k, formats[0]) && Below(reg, k, formats[1..])
    ensures nodes != [] && nodes[0].name == params[0] && ShapedInside(reg, k, formats[0], nodes[0].children)
    ensures Shaped(reg, k, params[1..], formats[1..], nodes[1..])
  {
    BelowRest(reg, k, formats);
    hide ShapedInside, Built, Below, Resolves;
  }

  /** A shaped tree has one value for each group. */
  lemma {:induction false} ShapedCount(reg: Registry, k: nat, params: seq<string>, formats: seq<string>,
      nodes: seq<Node>)
    requires Built(reg) && k <= |reg| && Below(reg, k, formats) && |params| == |formats|
    requires Shaped(reg, k, params, formats, nodes)
    ensures |Flatten(nodes)| == Groups(reg, k, formats)
    decreases k, |params| + 1
  {
    if params != [] {
      ShapedStep(reg, k, params, formats, nodes);
      hide Shaped, Groups, Flatten, ShapedInside, Built, Below, Resolves;
      GroupsStep(reg, k, formats);
      FlattenStep(nodes);
      InsideCount(reg, k, formats[0], nodes[0].children);
      ShapedCount(reg, k, params[1..], formats[1..], nodes[1..]);
    }
  }

  lemma {:induction false} InsideCount(reg: Registry, k: nat, format: string, children: seq<Node>)
    requires Built(reg) && k <= |reg| && Resolves(reg, k, format) && ShapedInside(reg, k, format, children)
    ensures |Flatten(children)| == GroupsInside(reg, k, format)
    decreases k, 0
  {
    if format != "" {
      var m := Find(reg, format).value;
      RanksDecrease(reg, m);
      ShapedCount(reg, m, reg[m].body.params, reg[m].body.formats, children);
    }
  }

  // ---------- a URI that fits gives the tree it fits with ----------

  lemma CompiledLists(reg: Registry, s: string, seen: set<string>)
    requires Next(s).Some? && CompileFrom(reg, s, seen).Some?
    ensures BodyOf(reg, Next(s).value.format).Some?
    ensures CompileFrom(reg, Rest(s), seen + {Next(s).value.name}).Some?
    ensures var p := Next(s).value;
      var c, c' := CompileFrom(reg, s, seen).value, CompileFrom(reg, Rest(s), seen + {p.name}).value;
      c.params == [p.name] + c'.params && c.formats == [p.format] + c'.formats
  {
    hide Rest, BodyOf, Next;
  }

  lemma {:induction false} FitsIsShaped(e: Engine, reg: Registry, k: nat, s: string, seen: set<string>, uri: string,
      nodes: seq<Node>)
    requires Built(reg) && k <= |reg| && CompileFrom(reg[..k], s, seen).Some? && Fits(e, reg, k, s, uri, nodes)
    ensures var c := CompileFrom(reg[..k], s, seen).value;
      Below(reg, k, c.formats) && Shaped(reg, k, c.params, c.formats, nodes)
    decreases k, |s| + 1
  {
    hide CompileFrom, Next, Rest, BodyOf, Fits, FitsFormat, Shaped, ShapedInside, Below, Resolves, Built, Lang, Find;
    FormatsBelow(reg, k, s, seen);
    if Next(s).None? {
      NothingShaped(e, reg, k, s, seen, uri, nodes);
    } else {
      CompiledLists(reg[..k], s, seen);
      var i := SplitFits(e, reg, k, s, uri, nodes);
      FitsName(e, reg, k, s, uri, nodes);
      var p, c := Next(s).value, CompileFrom(reg[..k], s, seen).value;
      GroupsStep(reg, k, c.formats);
      FormatIsShaped(e, reg, k, p.format, nodes[0].value, nodes[0].children);
      FitsIsShaped(e, reg, k, Rest(s), seen + {p.name}, uri[i + |nodes[0].value|..], nodes[1..]);
      ShapedCons(reg, k, c.params, c.formats, nodes[0], nodes[1..]);
      assert nodes == [nodes[0]] + nodes[1..];
    }
  }

  lemma NothingShaped(e: Engine, reg: Registry, k: nat, s: string, seen: set<string>, uri: string, nodes: seq<Node>)
    requires Built(reg) && k <= |reg| && CompileFrom(reg[..k], s, seen).Some? && Fits(e, reg, k, s, uri, nodes) &&
      Next(s).None?
    requires Below(reg, k, CompileFrom(reg[..k], s, seen).value.formats)
    ensures var c := CompileFrom(reg[..k], s, seen).value; Shaped(reg, k, c.params, c.formats, nodes)
  {
    hide Lang, Below;
  }

  lemma FitsName(e: Engine, reg: Registry, k: nat, s: string, uri: string, nodes: seq<Node>)
    requires k <= |reg| && Fits(e, reg, k, s, uri, nodes) && Next(s).Some?
    ensures nodes != [] && nodes[0].name == Next(s).value.name
  {
    hide Lang, FitsFormat, FitsFrom, Next;
  }

  lemma {:induction false} FormatIsShaped(e: Engine, reg: Registry, k: nat, format: string, value: string,
      children: seq<Node>)
    requires Built(reg) && k <= |reg| && Resolves(reg, k, format) && FitsFormat(e, reg, k, format, value, children)
    ensures ShapedInside(reg, k, format, children)
    decreases k, 0
  {
    if format != "" {
      var m := Find(reg, format).value;
      RanksDecrease(reg, m);
      FitsIsShaped(e, reg, m, reg[m].body.template, {}, value, children);
    }
  }

  /** extractAndSaveValues: the URI's groups, if it matched, are read from the second one on. */
  function Extract(reg: Registry, c: Compiled, found: Option<seq<string>>): Option<(string, Saved)>
    requires Built(reg) && Compile(reg, c.template) == Some(c)
    requires found.Some? ==> found.value != []
  {
    match found
    case None => None
    case Some(results) =>
      CompiledReaches(reg, c);
      Some((results[0], Values(reg, |reg|, results, 1, c.params, c.formats)))
  }

  lemma CompiledReaches(reg: Registry, c: Compiled)
    requires Compile(reg, c.template) == Some(c)
    ensures Below(reg, |reg|, c.formats) && Reaches(reg, |reg|, c.formats) && |c.params| == |c.formats|
    ensures CompileFrom(reg[..|reg|], c.template, {}) == Some(c) && Distinct(c.params, {})
  {
    assert reg[..|reg|] == reg;
    FormatsBelow(reg, |reg|, c.template, {});
    BelowReaches(reg, |reg|, c.formats);
    ParamsDistinct(reg, c.template, {});
  }

  /** Reading one result for every group never fails, and ends behind the last result. */
  lemma EveryResultIsRead(reg: Registry, c: Compiled, results: seq<string>)
    requires Built(reg) && Compile(reg, c.template) == Some(c)
    ensures Below(reg, |reg|, c.formats)
    ensures |results| == 1 + Groups(reg, |reg|, c.formats) ==>
      var r := Extract(reg, c, Some(results));
      r.Some? && r.value.0 == results[0] && r.value.1.Some? && r.value.1.value.1 == |results|
      && Flatten(r.value.1.value.0) == results[1..] && Shaped(reg, |reg|, c.params, c.formats, r.value.1.value.0)
  {
    hide Compile, CompileFrom, Shaped, Groups, Built, Below, Flatten, Distinct, Reaches, Extract, Values, ValuesFrom,
      ReadsAll;
    CompiledReaches(reg, c);
    if |results| == 1 + Groups(reg, |reg|, c.formats) {
      EveryGroupIsRead(reg, |reg|, results, 1, c.params, c.formats, {});
      ExtractIs(reg, c, results);
      ReadsToTheEnd(results, ValuesFrom(reg, |reg|, results, 1, c.params, c.formats, {}), Groups(reg, |reg|,
        c.formats));
    }
  }

  /** Where reading ends if it succeeds: behind one result for every group, all of which there were. */
  lemma {:induction false} ReadingEnds(reg: Registry, k: nat, results: seq<string>, pos: nat, params: seq<string>,
      formats: seq<string>, used: set<string>)
    requires Built(reg) && k <= |reg| && Below(reg, k, formats) && |params| == |formats| && pos <= |results|
    ensures Reaches(reg, k, formats)
    ensures var saved := ValuesFrom(reg, k, results, pos, params, formats, used);
      saved.Some? ==> saved.value.1 == pos + Groups(reg, k, formats) <= |results|
    decreases k, |params| + 1
  {
    hide Groups, GroupsInside, ValuesFrom, Inner, Before, Built, Below, Resolves, Reaches, FormatReaches, Find;
    BelowReaches(reg, k, formats);
    if params == [] {
      NothingToRead(reg, k, results, pos, formats, used);
    } else {
      GroupsStep(reg, k, formats);
      FirstReaches(reg, k, formats);
      RestReaches(reg, k, formats);
      ValuesSplit(reg, k, results, pos, params, formats, used);
      if pos < |results| && params[0] !in used {
        InsideEnds(reg, k, results, pos + 1, formats[0]);
        var inner := Inner(reg, k, results, pos + 1, formats[0]);
        if inner.Some? {
          ReadingEnds(reg, k, results, inner.value.1, params[1..], formats[1..], used + {params[0]});
        }
      }
    }
  }

  lemma RestReaches(reg: Registry, k: nat, formats: seq<string>)
    requires Reaches(reg, k, formats) && formats != []
    ensures Reaches(reg, k, formats[1..])
  {
    assert forall i :: 0 <= i < |formats[1..]| ==> formats[1..][i] == formats[i + 1];
  }

  lemma NothingToRead(reg: Registry, k: nat, results: seq<string>, pos: nat, formats: seq<string>, used: set<string>)
    requires Built(reg) && k <= |reg| && Below(reg, k, formats) && Reaches(reg, k, formats) && formats == []
    ensures ValuesFrom(reg, k, results, pos, [], formats, used) == Some(([], pos)) && Groups(reg, k, formats) == 0
  {
  }

  /** One parameter: its own result, those inside it, and those of the other parameters. */
  lemma ValuesSplit(reg: Registry, k: nat, results: seq<string>, pos: nat, params: seq<string>, formats: seq<string>,
      used: set<string>)
    requires Built(reg) && k <= |reg| && |params| == |formats| && params != []
    requires Reaches(reg, k, formats) && FormatReaches(reg, k, formats[0]) && Reaches(reg, k, formats[1..])
    ensures var saved := ValuesFrom(reg, k, results, pos, params, formats, used);
      saved.Some? ==>
        && pos < |results| && params[0] !in used && Inner(reg, k, results, pos + 1, formats[0]).Some?
        && var end := Inner(reg, k, results, pos + 1, formats[0]).value.1;
           var rest := ValuesFrom(reg, k, results, end, params[1..], formats[1..], used + {params[0]});
           rest.Some? && rest.value.1 == saved.value.1
  {
    hide Built, Reaches, FormatReaches, Inner;
  }

  lemma {:induction false} InsideEnds(reg: Registry, k: nat, results: seq<string>, pos: nat, format: string)
    requires Built(reg) && k <= |reg| && Resolves(reg, k, format) && FormatReaches(reg, k, format) && pos <= |results|
    ensures var inner := Inner(reg, k, results, pos, format);
      inner.Some? ==> inner.value.1 == pos + GroupsInside(reg, k, format) <= |results|
    decreases k, 0
  {
    if format != "" {
      var m := Find(reg, format).value;
      RanksDecrease(reg, m);
      BodyReaches(reg, m);
      hide ValuesFrom, Groups, Built, Below, Reaches;
      if |reg[m].body.params| > 0 {
        ReadingEnds(reg, m, results, pos, reg[m].body.params, reg[m].body.formats, {});
      } else {
        NoGroupsInside(reg, m);
      }
    }
  }

  lemma NoGroupsInside(reg: Registry, m: nat)
    requires Built(reg) && m < |reg| && Below(reg, m, reg[m].body.formats) && reg[m].body.formats == []
    ensures Groups(reg, m, reg[m].body.formats) == 0
  {
  }

  /** Reading the groups of a template fails exactly when there are fewer results than groups. */
  lemma ReadingFailsExactly(reg: Registry, c: Compiled, results: seq<string>)
    requires Built(reg) && Compile(reg, c.template) == Some(c) && results != []
    ensures Below(reg, |reg|, c.formats)
    ensures Extract(reg, c, Some(results)).value.1.Some? <==> 1 + Groups(reg, |reg|, c.formats) <= |results|
  {
    hide Compile, CompileFrom, Groups, Built, Below, Distinct, Reaches, ValuesFrom, ReadsAll, Shaped, Flatten;
    CompiledReaches(reg, c);
    ReadingEnds(reg, |reg|, results, 1, c.params, c.formats, {});
    if 1 + Groups(reg, |reg|, c.formats) <= |results| {
      EveryGroupIsRead(reg, |reg|, results, 1, c.params, c.formats, {});
      Reading(results, 1, ValuesFrom(reg, |reg|, results, 1, c.params, c.formats, {}), Groups(reg, |reg|, c.formats));
    }
  }

  lemma ExtractIs(reg: Registry, c: Compiled, results: seq<string>)
    requires Built(reg) && Compile(reg, c.template) == Some(c) && |results| > |c.params|
    ensures Reaches(reg, |reg|, c.formats) && |c.params| == |c.formats|
    ensures Extract(reg, c, Some(results)) == Some((results[0], ValuesFrom(reg, |reg|, results, 1, c.params,
      c.formats, {})))
  {
    CompiledReaches(reg, c);
    hide Compile, CompileFrom, ValuesFrom, Built, Below, Reaches;
  }

  lemma ReadsToTheEnd(results: seq<string>, saved: Saved, n: nat)
    requires ReadsAll(results, 1, saved, n) && |results| == 1 + n
    ensures saved.Some? && saved.value.1 == |results| && Flatten(saved.value.0) == results[1..]
  {
    assert results[1..1 + n] == results[1..];
    hide Flatten;
  }

  ghost predicate Means(e: Engine, reg: Registry, template: string, uri: string) {
    exists nodes :: Fits(e, reg, |reg|, template, uri, nodes)
  }

  /** The pattern for matching and the pattern for extracting accept the same URIs: those that fit the template. */
  lemma PatternsAgree(e: Engine, reg: Registry, c: Compiled, uri: string)
    requires Built(reg) && Compile(reg, c.template) == Some(c) && ClosedTexts(reg, |reg|, c.template)
    ensures Lang(e, c.matchPattern, uri) <==> Means(e, reg, c.template, uri)
    ensures Lang(e, c.extractPattern, uri) <==> Means(e, reg, c.template, uri)
  {
    var s := c.template;
    CompiledSetting(reg, c);
    hide Setting, Compile, CompileFrom, Fits, ClosedTexts, Built;
    if Means(e, reg, s, uri) {
      var nodes :| Fits(e, reg, |reg|, s, uri, nodes);
      MeaningMatches(e, reg, |reg|, s, {}, uri, nodes);
    }
    if Lang(e, c.matchPattern, uri) {
      var nodes := PatternMeans(e, reg, |reg|, s, {}, uri, false);
    }
    if Lang(e, c.extractPattern, uri) {
      var nodes := PatternMeans(e, reg, |reg|, s, {}, uri, true);
    }
  }

  lemma CompiledSetting(reg: Registry, c: Compiled)
    requires Built(reg) && Compile(reg, c.template) == Some(c) && ClosedTexts(reg, |reg|, c.template)
    ensures Setting(reg, |reg|, c.template, {}) && CompileFrom(reg[..|reg|], c.template, {}) == Some(c)
  {
    assert reg[..|reg|] == reg;
  }

  /**
   Whatever the groups hold after a match, extraction succeeds, uses them all, and gives a
   tree of values that fits the URI. Conversely every fitting tree is what extraction gives
   when the groups hold its values.
   */
  lemma ExtractionFits(e: Engine, reg: Registry, c: Compiled, uri: string, caps: seq<string>)
    requires Built(reg) && Compile(reg, c.template) == Some(c) && ClosedTexts(reg, |reg|, c.template)
    requires TextGroups(reg, |reg|, c.template) == 0
    requires Closed(c.extractPattern) && Captures(e, ReOf(c.extractPattern), uri, caps)
    ensures var r := Extract(reg, c, Some([uri] + caps)).value;
      r.0 == uri && r.1.Some? && r.1.value.1 == 1 + |caps|
      && Flatten(r.1.value.0) == caps && Fits(e, reg, |reg|, c.template, uri, r.1.value.0)
  {
    CompiledSetting(reg, c);
    hide Setting, Fits, ClosedTexts, TextGroups, Shaped, Captures, Closed, ReOf, CompileFrom, Compile, Extract,
      Built;
    var nodes := CapturesMean(e, reg, |reg|, c.template, {}, uri, caps);
    FittingTreeIsRead(e, reg, c, uri, nodes);
  }

  lemma FittingTreeIsRead(e: Engine, reg: Registry, c: Compiled, uri: string, nodes: seq<Node>)
    requires Built(reg) && Compile(reg, c.template) == Some(c) && Fits(e, reg, |reg|, c.template, uri, nodes)
    ensures Extract(reg, c, Some([uri] + Flatten(nodes))) == Some((uri, Some((nodes, 1 + |Flatten(nodes)|))))
  {
    hide Fits, Shaped, ShapedInside, CompileFrom, Compile, Extract, Values, ValuesFrom, Built, Groups, Below,
      Reaches, Flatten, Distinct, Find;
    CompiledReaches(reg, c);
    FitsIsShaped(e, reg, |reg|, c.template, {}, uri, nodes);
    ShapedIsRead(reg, c, uri, nodes);
  }

  lemma ShapedIsRead(reg: Registry, c: Compiled, uri: string, nodes: seq<Node>)
    requires Built(reg) && Compile(reg, c.template) == Some(c)
    requires |c.params| == |c.formats| && Below(reg, |reg|, c.formats) && Shaped(reg, |reg|, c.params, c.formats, nodes)
    ensures Extract(reg, c, Some([uri] + Flatten(nodes))) == Some((uri, Some((nodes, 1 + |Flatten(nodes)|))))
  {
    hide Shaped, ShapedInside, CompileFrom, Compile, Extract, Values, ValuesFrom, Built, Groups, Below, Reaches,
      Flatten, Distinct, Find;
    ShapedCount(reg, |reg|, c.params, c.formats, nodes);
    var results := [uri] + Flatten(nodes);
    EveryResultIsRead(reg, c, results);
    assert results[1..] == Flatten(nodes);
    var r := Extract(reg, c, Some(results));
    TreeIsUnique(reg, |reg|, c.params, c.formats, nodes, r.value.1.value.0);
  }
}
