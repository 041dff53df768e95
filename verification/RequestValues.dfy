/**
 The template values of a request. Every target of a dispatch chain extracts its
 parameters into the same object, where adding a name that is there already fails an
 assertion.
 */
module RequestValues {
  import opened Wrappers
  import TemplateMeaning
  import C = TemplateCompiler
  import X = TemplateExtract

  type Node = TemplateMeaning.Node

  /** What one template extracts from a path: the text of the match, and a child for each parameter. */
  datatype Extraction = Extraction(text: string, nodes: seq<Node>)

  type Children = map<string, Node>

  datatype Values = Values(text: string, children: Children)

  /** addChild for each node; `None` is the failing assertion. */
  function AddChildren(c: Children, nodes: seq<Node>): Option<Children>
    decreases |nodes|
  {
    if nodes == [] then Some(c)
    else if nodes[0].name in c then None
    else AddChildren(c[nodes[0].name := nodes[0]], nodes[1..])
  }

  /** Without a match nothing is saved. */
  function Save(v: Values, found: Option<Extraction>): Option<Values> {
    match found
    case None => Some(v)
    case Some(e) =>
      match AddChildren(v.children, e.nodes)
      case None => None
      case Some(c) => Some(Values(e.text, c))
  }

  function SaveAll(v: Values, found: seq<Option<Extraction>>): Option<Values>
    decreases |found|
  {
    if found == [] then Some(v)
    else
      match Save(v, found[0])
      case None => None
      case Some(v') => SaveAll(v', found[1..])
  }

  /** First the extractions a, then, unless one fails, the extractions b. */
  lemma {:induction false} SaveAllAppend(v: Values, a: seq<Option<Extraction>>, b: seq<Option<Extraction>>)
    ensures SaveAll(v, a + b) ==
      match SaveAll(v, a) { case None => None case Some(v') => SaveAll(v', b) }
    decreases |a|
  {
    hide Save;
    if a == [] {
      assert a + b == b;
    } else {
      assert (a + b)[0] == a[0] && (a + b)[1..] == a[1..] + b;
      var first := Save(v, a[0]);
      if first.Some? {
        SaveAllAppend(first.value, a[1..], b);
      }
    }
  }

  /** The text is that of the last template that matched. */
  lemma {:induction false} LastText(v: Values, found: seq<Option<Extraction>>, k: nat)
    requires SaveAll(v, found).Some? && k < |found| && found[k].Some?
    requires forall i :: k < i < |found| ==> found[i].None?
    ensures SaveAll(v, found).value.text == found[k].value.text
    decreases |found|
  {
    if k > 0 {
      LastText(Save(v, found[0]).value, found[1..], k - 1);
    } else {
      TextStays(Save(v, found[0]).value, found[1..]);
    }
  }

  lemma {:induction false} TextStays(v: Values, found: seq<Option<Extraction>>)
    requires SaveAll(v, found).Some? && forall i :: 0 <= i < |found| ==> found[i].None?
    ensures SaveAll(v, found).value == v
    decreases |found|
  {
    if found != [] {
      assert found[0].None? && forall i :: 0 <= i < |found| - 1 ==> found[1..][i] == found[i + 1];
      TextStays(v, found[1..]);
    }
  }

  /** All children that are added, in order. */
  function Nodes(found: seq<Option<Extraction>>): seq<Node> {
    if found == [] then [] else NodesOf(found[0]) + Nodes(found[1..])
  }

  function NodesOf(found: Option<Extraction>): seq<Node> {
    match found
    case None => []
    case Some(e) => e.nodes
  }

  // ---------- when adding succeeds ----------

  /** The names are new and differ from each other. */
  ghost predicate NewNames(c: Children, nodes: seq<Node>) {
    && (forall i :: 0 <= i < |nodes| ==> nodes[i].name !in c)
    && forall i, j :: 0 <= i < j < |nodes| ==> nodes[i].name != nodes[j].name
  }

  ghost predicate Named(nodes: seq<Node>, name: string) {
    exists i :: 0 <= i < |nodes| && nodes[i].name == name
  }

  /** The children are those there were, and the nodes under their names. */
  ghost predicate Holds(c: Children, nodes: seq<Node>, c': Children) {
    && (forall name :: name in c' <==> name in c || Named(nodes, name))
    && (forall name :: name in c && name in c' ==> c'[name] == c[name])
    && forall i :: 0 <= i < |nodes| ==> nodes[i].name in c' && c'[nodes[i].name] == nodes[i]
  }

  lemma NewNamesCons(c: Children, nodes: seq<Node>)
    requires nodes != []
    ensures NewNames(c, nodes) <==> nodes[0].name !in c && NewNames(c[nodes[0].name := nodes[0]], nodes[1..])
  {
    assert forall i :: 1 <= i < |nodes| ==> nodes[i] == nodes[1..][i - 1];
    assert nodes == [nodes[0]] + nodes[1..];
  }

  lemma HoldsCons(c: Children, nodes: seq<Node>, c': Children)
    requires nodes != [] && nodes[0].name !in c && Holds(c[nodes[0].name := nodes[0]], nodes[1..], c')
    ensures Holds(c, nodes, c')
  {
    forall name
      ensures Named(nodes, name) <==> name == nodes[0].name || Named(nodes[1..], name)
    {
      NamedCons(nodes, name);
    }
    hide Named;
    assert nodes == [nodes[0]] + nodes[1..];
  }

  lemma NamedCons(nodes: seq<Node>, name: string)
    requires nodes != []
    ensures Named(nodes, name) <==> name == nodes[0].name || Named(nodes[1..], name)
  {
    assert nodes == [nodes[0]] + nodes[1..];
  }

  /** Adding succeeds exactly when the names are new and differ, and then loses nothing. */
  lemma {:induction false} AddExactly(c: Children, nodes: seq<Node>)
    ensures AddChildren(c, nodes).Some? <==> NewNames(c, nodes)
    ensures AddChildren(c, nodes).Some? ==> Holds(c, nodes, AddChildren(c, nodes).value)
    decreases |nodes|
  {
    if nodes == [] {
    } else {
      hide NewNames, Holds;
      NewNamesCons(c, nodes);
      if nodes[0].name !in c {
        AddExactly(c[nodes[0].name := nodes[0]], nodes[1..]);
        if AddChildren(c, nodes).Some? {
          HoldsCons(c, nodes, AddChildren(c, nodes).value);
        }
      }
    }
  }

  lemma {:induction false} AddAppend(c: Children, a: seq<Node>, b: seq<Node>)
    ensures AddChildren(c, a + b) ==
      match AddChildren(c, a) { case None => None case Some(c') => AddChildren(c', b) }
    decreases |a|
  {
    if a == [] {
      assert a + b == b;
    } else {
      assert (a + b)[0] == a[0] && (a + b)[1..] == a[1..] + b;
      if a[0].name !in c {
        AddAppend(c[a[0].name := a[0]], a[1..], b);
      }
    }
  }

  lemma {:induction false} SaveAllAdds(v: Values, found: seq<Option<Extraction>>)
    ensures AddChildren(v.children, Nodes(found)) ==
      match SaveAll(v, found) { case None => None case Some(v') => Some(v'.children) }
    decreases |found|
  {
    hide AddChildren;
    if found == [] {
      AddNothing(v.children);
    } else {
      AddNothing(v.children);
      AddAppend(v.children, NodesOf(found[0]), Nodes(found[1..]));
      var first := Save(v, found[0]);
      if first.Some? {
        SaveAllAdds(first.value, found[1..]);
      }
    }
  }

  lemma AddNothing(c: Children)
    ensures AddChildren(c, []) == Some(c)
  {
  }

  /**
   Any number of extractions succeeds exactly when no name comes twice and none is there
   already; then every value is found under its name, and nothing is lost.
   */
  lemma SaveAllExactly(v: Values, found: seq<Option<Extraction>>)
    ensures SaveAll(v, found).Some? <==> NewNames(v.children, Nodes(found))
    ensures SaveAll(v, found).Some? ==> Holds(v.children, Nodes(found), SaveAll(v, found).value.children)
  {
    hide *;
    SaveAllAdds(v, found);
    AddExactly(v.children, Nodes(found));
  }

  /** An extraction gives a value for the name. */
  ghost predicate Gives(found: Option<Extraction>, name: string) {
    Named(NodesOf(found), name)
  }

  lemma {:induction false} NodeAt(found: seq<Option<Extraction>>, i: nat, m: nat) returns (p: nat)
    requires i < |found| && m < |NodesOf(found[i])|
    ensures p < |Nodes(found)| && Nodes(found)[p] == NodesOf(found[i])[m]
  {
    if i == 0 {
      p := m;
    } else {
      p := NodeAt(found[1..], i - 1, m);
      p := |NodesOf(found[0])| + p;
    }
  }

  lemma {:induction false} TwoNodes(found: seq<Option<Extraction>>, i: nat, j: nat, m: nat, n: nat)
      returns (p: nat, q: nat)
    requires i < j < |found| && m < |NodesOf(found[i])| && n < |NodesOf(found[j])|
    ensures p < q < |Nodes(found)| && Nodes(found)[p] == NodesOf(found[i])[m] && Nodes(found)[q] == NodesOf(found[j])[n]
  {
    if i == 0 {
      p := m;
      q := NodeAt(found[1..], j - 1, n);
      q := |NodesOf(found[0])| + q;
    } else {
      p, q := TwoNodes(found[1..], i - 1, j - 1, m, n);
      p, q := |NodesOf(found[0])| + p, |NodesOf(found[0])| + q;
    }
  }

  /** Two extractions that give one name are not both saved. */
  lemma TwiceGiven(v: Values, found: seq<Option<Extraction>>, i: nat, j: nat, name: string)
    requires i < j < |found| && Gives(found[i], name) && Gives(found[j], name)
    ensures SaveAll(v, found) == None
  {
    var m :| 0 <= m < |NodesOf(found[i])| && NodesOf(found[i])[m].name == name;
    var n :| 0 <= n < |NodesOf(found[j])| && NodesOf(found[j])[n].name == name;
    var p, q := TwoNodes(found, i, j, m, n);
    SaveAllExactly(v, found);
    hide SaveAll, Holds, Nodes;
  }

  // ---------- the names that a template gives ----------

  lemma {:induction false} ShapedNames(reg: C.Registry, k: nat, params: seq<string>, formats: seq<string>,
      nodes: seq<Node>)
    requires C.Built(reg) && k <= |reg| && C.Below(reg, k, formats) && |params| == |formats|
    requires X.Shaped(reg, k, params, formats, nodes)
    ensures |nodes| == |params| && forall i :: 0 <= i < |nodes| ==> nodes[i].name == params[i]
    decreases |params|
  {
    if params != [] {
      hide C.Built, X.ShapedInside;
      X.BelowRest(reg, k, formats);
      ShapedNames(reg, k, params[1..], formats[1..], nodes[1..]);
      assert nodes == [nodes[0]] + nodes[1..];
    }
  }

  lemma {:induction false} DistinctParams(params: seq<string>, used: set<string>)
    requires X.Distinct(params, used)
    ensures forall i :: 0 <= i < |params| ==> params[i] !in used
    ensures forall i, j :: 0 <= i < j < |params| ==> params[i] != params[j]
  {
    if params != [] {
      DistinctParams(params[1..], used + {params[0]});
      assert params == [params[0]] + params[1..];
    }
  }

  /**
   The names that an extraction gives are those of the template's parameters, and one
   template never gives a name twice: only different targets can clash.
   */
  lemma ExtractedNames(reg: C.Registry, c: C.Compiled, results: seq<string>)
    requires C.Built(reg) && C.Compile(reg, c.template) == Some(c)
    ensures C.Below(reg, |reg|, c.formats)
    ensures |results| == 1 + X.Groups(reg, |reg|, c.formats) ==>
      var r := X.Extract(reg, c, Some(results));
      r.Some? && r.value.1.Some? && NewNames(map[], r.value.1.value.0)
      && forall name :: Named(r.value.1.value.0, name) <==> name in c.params
  {
    X.EveryResultIsRead(reg, c, results);
    if |results| == 1 + X.Groups(reg, |reg|, c.formats) {
      X.CompiledReaches(reg, c);
      var nodes := X.Extract(reg, c, Some(results)).value.1.value.0;
      hide X.Extract, C.Built, C.Compile, C.CompileFrom, X.Shaped, X.Groups, C.Below, X.Distinct;
      ShapedNames(reg, |reg|, c.params, c.formats, nodes);
      DistinctParams(c.params, {});
    }
  }
}
