/**
 The two patterns of a template side by side: the extract pattern is the match pattern
 with a pair of parentheses around the pattern of every parameter, at every level of
 nesting, and extraction reads one value for each pair. This holds for all texts, also
 those that cannot be concatenated safely.
 */
module TemplatePieces {
  import opened Wrappers
  import opened RegexSyntax
  import opened RegexMatch
  import opened TemplateLexer
  import opened TemplateCompiler
  import opened TemplateMeaning
  import opened TemplateExtract

  datatype Piece = Text(text: string) | Parameter(inside: seq<Piece>)

  /** A pattern's characters, with or without parentheses around the parameters. */
  function Show(ps: seq<Piece>, parentheses: bool): string {
    if ps == [] then ""
    else
      (match ps[0]
       case Text(t) => t
       case Parameter(q) => if parentheses then "(" + Show(q, true) + ")" else Show(q, false))
      + Show(ps[1..], parentheses)
  }

  function Pairs(ps: seq<Piece>): nat {
    if ps == [] then 0
    else (match ps[0] case Text(_) => 0 case Parameter(q) => 1 + Pairs(q)) + Pairs(ps[1..])
  }

  /** What a template consists of when every format is replaced by what it consists of. */
  function Pieces(reg: Registry, k: nat, s: string): seq<Piece>
    requires k <= |reg|
    decreases k, |s| + 1
  {
    match Next(s)
    case None => [Text(s)]
    case Some(p) => [Text(p.text), Parameter(PiecesInside(reg, k, p.format))] + Pieces(reg, k, Rest(s))
  }

  function PiecesInside(reg: Registry, k: nat, format: string): seq<Piece>
    requires k <= |reg|
    decreases k, 0
  {
    if format == "" then [Text("[^/]+")]
    else
      match Find(reg, format)
      case None => []
      case Some(m) => if m < k then Pieces(reg, m, reg[m].body.template) else []
  }

  ghost predicate Shows(c: Compiled, ps: seq<Piece>) {
    c.matchPattern == Show(ps, false) && c.extractPattern == Show(ps, true)
  }

  lemma {:induction false} PatternsDifferInParentheses(reg: Registry, k: nat, s: string, seen: set<string>)
    requires Built(reg) && k <= |reg| && CompileFrom(reg[..k], s, seen).Some?
    ensures var c, ps := CompileFrom(reg[..k], s, seen).value, Pieces(reg, k, s);
      Shows(c, ps) && Below(reg, k, c.formats) && Pairs(ps) == Groups(reg, k, c.formats)
    decreases k, |s| + 1
  {
    FormatsBelow(reg, k, s, seen);
    if Next(s).None? {
      TextPieces(reg, k, s, seen);
    } else {
      CompiledStep(reg[..k], s, seen);
      CompiledLists(reg[..k], s, seen);
      PiecesStep(reg, k, s);
      hide CompileFrom, Shows, Pieces, PiecesInside, Pairs, Groups, GroupsInside, Below, Resolves, Next, Rest, Built,
        BodyOf, Joined, Find;
      var p, c := Next(s).value, CompileFrom(reg[..k], s, seen).value;
      var c' := CompileFrom(reg[..k], Rest(s), seen + {p.name}).value;
      GroupsStep(reg, k, c.formats);
      InsideDiffers(reg, k, p.format);
      PatternsDifferInParentheses(reg, k, Rest(s), seen + {p.name});
      ShowsStep(p.text, BodyOf(reg[..k], p.format).value, c', c, PiecesInside(reg, k, p.format), Pieces(reg, k,
        Rest(s)));
    }
  }

  lemma TextPieces(reg: Registry, k: nat, s: string, seen: set<string>)
    requires Built(reg) && k <= |reg| && Next(s).None?
    requires Below(reg, k, CompileFrom(reg[..k], s, seen).value.formats)
    ensures var c, ps := CompileFrom(reg[..k], s, seen).value, Pieces(reg, k, s);
      Shows(c, ps) && Pairs(ps) == Groups(reg, k, c.formats)
  {
    hide Built, Below;
    var ps := Pieces(reg, k, s);
    OneText(s);
  }

  lemma PiecesStep(reg: Registry, k: nat, s: string)
    requires k <= |reg| && Next(s).Some?
    ensures var p := Next(s).value;
      Pieces(reg, k, s) == [Text(p.text), Parameter(PiecesInside(reg, k, p.format))] + Pieces(reg, k, Rest(s))
  {
    hide Next, Rest, PiecesInside;
  }

  lemma {:induction false} InsideDiffers(reg: Registry, k: nat, format: string)
    requires Built(reg) && k <= |reg| && BodyOf(reg[..k], format).Some? && Resolves(reg, k, format)
    ensures Shows(BodyOf(reg[..k], format).value, PiecesInside(reg, k, format))
    ensures Pairs(PiecesInside(reg, k, format)) == GroupsInside(reg, k, format)
    decreases k, 0
  {
    if format == "" {
      OneText("[^/]+");
    } else {
      BodyRank(reg, k, format);
      var m := Find(reg, format).value;
      PatternsDifferInParentheses(reg, m, reg[m].body.template, {});
    }
  }

  lemma OneText(t: string)
    ensures Show([Text(t)], false) == t && Show([Text(t)], true) == t && Pairs([Text(t)]) == 0
  {
    var ps := [Text(t)];
    assert ps[1..] == [] && Show([], false) == "" && Show([], true) == "" && Pairs([]) == 0;
    assert t + "" == t;
  }

  lemma ShowsStep(text: string, b: Compiled, c: Compiled, whole: Compiled, inside: seq<Piece>, rest: seq<Piece>)
    requires Shows(b, inside) && Shows(c, rest)
    requires whole.matchPattern == Joined(text, b, c).0 && whole.extractPattern == Joined(text, b, c).1
    ensures var ps := [Text(text), Parameter(inside)] + rest;
      Shows(whole, ps) && Pairs(ps) == 1 + Pairs(inside) + Pairs(rest)
  {
    var ps := [Text(text), Parameter(inside)] + rest;
    var qs := [Parameter(inside)] + rest;
    assert ps[0] == Text(text) && ps[1..] == qs && qs[0] == Parameter(inside) && qs[1..] == rest;
    ShowTwo(ps, qs, rest, text, inside, false);
    ShowTwo(ps, qs, rest, text, inside, true);
    assert Pairs(ps) == Pairs(qs);
  }

  lemma ShowTwo(ps: seq<Piece>, qs: seq<Piece>, rest: seq<Piece>, text: string, inside: seq<Piece>, parentheses: bool)
    requires ps != [] && ps[0] == Text(text) && ps[1..] == qs
    requires qs != [] && qs[0] == Parameter(inside) && qs[1..] == rest
    ensures Show(ps, parentheses) ==
      text + ((if parentheses then "(" + Show(inside, true) + ")" else Show(inside, false)) + Show(rest, parentheses))
  {
    assert Show(ps, parentheses) == text + Show(qs, parentheses);
  }

  /**
   The groups generated by parse are those that saveValues visits: with one result for
   each added pair of parentheses no assertion fails and the last result is the last read.
   */
  lemma {:induction false} GroupsAreVisited(reg: Registry, c: Compiled, results: seq<string>)
    requires Built(reg) && Compile(reg, c.template) == Some(c)
    ensures Shows(c, Pieces(reg, |reg|, c.template))
    ensures |results| == 1 + Pairs(Pieces(reg, |reg|, c.template)) ==>
      var r := Extract(reg, c, Some(results));
      r.Some? && r.value.1.Some? && r.value.1.value.1 == |results| && Flatten(r.value.1.value.0) == results[1..]
  {
    hide Shows, Pieces, Pairs, Groups, Built, Below, Shaped, Extract, Flatten;
    assert reg[..|reg|] == reg;
    PatternsDifferInParentheses(reg, |reg|, c.template, {});
    EveryResultIsRead(reg, c, results);
  }

  // ---------- spans ----------

  /** The values lie in the text one after the other, and the values inside them likewise. */
  ghost predicate Nested(nodes: seq<Node>, text: string)
    decreases nodes
  {
    nodes == [] || exists i: nat :: NestedFrom(nodes, text, i)
  }

  ghost predicate NestedFrom(nodes: seq<Node>, text: string, i: nat)
    requires nodes != []
    decreases nodes, 0
  {
    var value := nodes[0].value;
    i + |value| <= |text| && text[i..i + |value|] == value &&
    Nested(nodes[0].children, value) && Nested(nodes[1..], text[i + |value|..])
  }

  /** In a tree that fits, the span of a value lies inside the span of its parent, after those of its elder siblings. */
  lemma {:induction false} SpansNest(e: Engine, reg: Registry, k: nat, s: string, uri: string, nodes: seq<Node>)
    requires k <= |reg| && Fits(e, reg, k, s, uri, nodes)
    ensures Nested(nodes, uri)
    decreases k, |s| + 1
  {
    if Next(s).Some? {
      var i := SplitFits(e, reg, k, s, uri, nodes);
      hide Fits, Next, Rest, Lang;
      SpansNest(e, reg, k, Rest(s), uri[i + |nodes[0].value|..], nodes[1..]);
      SpansNestInside(e, reg, k, Next(s).value.format, nodes[0].value, nodes[0].children);
      assert NestedFrom(nodes, uri, i);
    }
  }

  lemma {:induction false} SpansNestInside(e: Engine, reg: Registry, k: nat, format: string, value: string,
      children: seq<Node>)
    requires k <= |reg| && FitsFormat(e, reg, k, format, value, children)
    ensures Nested(children, value)
    decreases k, 0
  {
    if format != "" {
      var m := Find(reg, format).value;
      SpansNest(e, reg, m, reg[m].body.template, value, children);
    }
  }
}
