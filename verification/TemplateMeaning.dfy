/**
 What a URI template means, and that both compiled patterns mean just that. `Fits` is
 the meaning: the URI is the template's texts with a value in the place of every
 parameter, each value again fitting the template of its format. It mentions neither
 patterns nor capturing groups.
 */
module TemplateMeaning {
  import opened Wrappers
  import opened RegexSyntax
  import opened RegexMatch
  import opened RegexGroups
  import opened TemplateLexer
  import opened TemplateCompiler

  /** An extracted value: a parameter's name, its text in the URI, and the values inside it. */
  datatype Node = Node(name: string, value: string, children: seq<Node>)

  ghost predicate Lang(e: Engine, text: string, s: string) {
    Closed(text) && Accepts(e, ReOf(text), s)
  }

  ghost predicate Fits(e: Engine, reg: Registry, k: nat, s: string, uri: string, nodes: seq<Node>)
    requires k <= |reg|
    decreases k, |s| + 1
  {
    match Next(s)
    case None => nodes == [] && Lang(e, s, uri)
    case Some(p) =>
      nodes != [] && nodes[0].name == p.name &&
      FitsFormat(e, reg, k, p.format, nodes[0].value, nodes[0].children) &&
      exists i: nat :: FitsFrom(e, reg, k, s, uri, nodes, i)
  }

  /** The first text ends at position i, its parameter's value follows, and then the rest of the template. */
  ghost predicate FitsFrom(e: Engine, reg: Registry, k: nat, s: string, uri: string, nodes: seq<Node>, i: nat)
    requires k <= |reg| && Next(s).Some? && nodes != []
    decreases k, |s|
  {
    var value := nodes[0].value;
    i + |value| <= |uri| && uri[i..i + |value|] == value &&
    Lang(e, Next(s).value.text, uri[..i]) && Fits(e, reg, k, Rest(s), uri[i + |value|..], nodes[1..])
  }

  ghost predicate FitsFormat(e: Engine, reg: Registry, k: nat, format: string, value: string, children: seq<Node>)
    requires k <= |reg|
    decreases k, 0
  {
    if format == "" then children == [] && Lang(e, "[^/]+", value)
    else
      match Find(reg, format)
      case None => false
      case Some(m) => m < k && Fits(e, reg, m, reg[m].body.template, value, children)
  }

  // ---------- the texts that can be concatenated ----------

  /** No text of the template, nor of a format it reaches, has a top-level alternation or a leading quantifier. */
  predicate ClosedTexts(reg: Registry, k: nat, s: string)
    requires k <= |reg|
    decreases k, |s| + 1
  {
    match Next(s)
    case None => Closed(s)
    case Some(p) => Closed(p.text) && ClosedFormat(reg, k, p.format) && ClosedTexts(reg, k, Rest(s))
  }

  predicate ClosedFormat(reg: Registry, k: nat, format: string)
    requires k <= |reg|
    decreases k, 0
  {
    format == "" ||
    match Find(reg, format)
    case None => true
    case Some(m) => m < k ==> ClosedTexts(reg, m, reg[m].body.template)
  }

  /** The capturing groups that the texts bring in themselves, those of the formats included. */
  function TextGroups(reg: Registry, k: nat, s: string): nat
    requires k <= |reg| && ClosedTexts(reg, k, s)
    decreases k, |s| + 1
  {
    match Next(s)
    case None => Count(ReOf(s))
    case Some(p) => Count(ReOf(p.text)) + FormatGroups(reg, k, p.format) + TextGroups(reg, k, Rest(s))
  }

  function FormatGroups(reg: Registry, k: nat, format: string): nat
    requires k <= |reg| && ClosedFormat(reg, k, format)
    decreases k, 0
  {
    if format == "" then 0
    else
      match Find(reg, format)
      case None => 0
      case Some(m) => if m < k then TextGroups(reg, m, reg[m].body.template) else 0
  }

  lemma SimplePattern()
    ensures Closed("[^/]+") && ReOf("[^/]+") == Cat(Rep(Atom("[^/]"), "+"), Empty)
  {
    var s := "[^/]+";
    assert s[1..] == "^/]+" && s[1..][1..] == "/]+" && s[1..][1..][1..] == "]+";
    assert ClassLen("]+") == 1;
    assert ClassLen("/]+") == 2;
    assert ClassLen("^/]+") == 3;
    assert s[..4] == "[^/]" && s[4..] == "+";
    assert ParseAtom(s) == Ok(Atom("[^/]"), "+");
    assert "+"[..1] == "+" && "+"[1..] == "";
    assert ParseTerm(s) == Ok(Rep(Atom("[^/]"), "+"), "");
  }

  /** The format of a parameter is the simple one, or one of smaller rank. */
  lemma BodyRank(reg: Registry, k: nat, format: string)
    requires k <= |reg| && BodyOf(reg[..k], format).Some? && format != ""
    ensures Find(reg, format).Some? && Find(reg, format).value < k
    ensures BodyOf(reg[..k], format) == Some(reg[Find(reg, format).value].body)
  {
    FindGrows(reg[..k], reg, format);
  }

  /** The compiled registry that every lemma below is about, and a template compiled against its first k formats. */
  ghost predicate Setting(reg: Registry, k: nat, s: string, seen: set<string>) {
    Built(reg) && k <= |reg| && ClosedTexts(reg, k, s) && CompileFrom(reg[..k], s, seen).Some?
  }

  ghost predicate FormatReady(reg: Registry, k: nat, format: string) {
    Built(reg) && k <= |reg| && ClosedFormat(reg, k, format) && BodyOf(reg[..k], format).Some?
  }

  lemma FormatSetting(reg: Registry, k: nat, format: string)
    requires FormatReady(reg, k, format) && format != ""
    ensures Find(reg, format).Some? && Find(reg, format).value < k
    ensures var m := Find(reg, format).value;
      && Setting(reg, m, reg[m].body.template, {})
      && CompileFrom(reg[..m], reg[m].body.template, {}) == Some(reg[m].body)
      && BodyOf(reg[..k], format) == Some(reg[m].body)
      && FormatGroups(reg, k, format) == TextGroups(reg, m, reg[m].body.template)
  {
    BodyRank(reg, k, format);
  }

  lemma RestSetting(reg: Registry, k: nat, s: string, seen: set<string>)
    requires Setting(reg, k, s, seen) && Next(s).Some?
    ensures Setting(reg, k, Rest(s), seen + {Next(s).value.name}) && Closed(Next(s).value.text)
    ensures FormatReady(reg, k, Next(s).value.format)
    ensures CompileFrom(reg[..k], s, seen).Some?
    ensures TextGroups(reg, k, s) == Count(ReOf(Next(s).value.text)) + FormatGroups(reg, k, Next(s).value.format)
      + TextGroups(reg, k, Rest(s))
  {
    hide Closed, ReOf, BodyOf, Built, Count;
  }

  /** The two patterns of a template with at least one parameter. */
  lemma CompiledStep(reg: Registry, s: string, seen: set<string>)
    requires Next(s).Some? && CompileFrom(reg, s, seen).Some?
    ensures BodyOf(reg, Next(s).value.format).Some?
    ensures CompileFrom(reg, Rest(s), seen + {Next(s).value.name}).Some?
    ensures var p := Next(s).value; var b := BodyOf(reg, p.format).value;
      var c, c' := CompileFrom(reg, s, seen).value, CompileFrom(reg, Rest(s), seen + {p.name}).value;
      c.matchPattern == Joined(p.text, b, c').0 && c.extractPattern == Joined(p.text, b, c').1
  {
    hide Rest, BodyOf, Next;
  }

  /** The match and the extract pattern of a text, a parameter and a rest. */
  function Joined(text: string, b: Compiled, c: Compiled): (string, string) {
    (text + (b.matchPattern + c.matchPattern), text + ("(" + b.extractPattern + ")" + c.extractPattern))
  }

  // ---------- both patterns are closed ----------

  ghost predicate ClosedPatterns(c: Compiled) {
    Closed(c.matchPattern) && Closed(c.extractPattern)
  }

  lemma {:induction false} PatternsClosed(reg: Registry, k: nat, s: string, seen: set<string>)
    requires Setting(reg, k, s, seen)
    ensures ClosedPatterns(CompileFrom(reg[..k], s, seen).value)
    decreases k, |s| + 1
  {
    if Next(s).Some? {
      RestSetting(reg, k, s, seen);
      CompiledStep(reg[..k], s, seen);
      hide Setting, FormatReady, CompileFrom, ClosedPatterns, Next, Rest, BodyOf, Closed, Joined;
      var p := Next(s).value;
      PatternsClosed(reg, k, Rest(s), seen + {p.name});
      BodyClosed(reg, k, p.format);
      var c := CompileFrom(reg[..k], Rest(s), seen + {p.name}).value;
      ClosedJoin(p.text, BodyOf(reg[..k], p.format).value, c, CompileFrom(reg[..k], s, seen).value);
    }
  }

  lemma {:induction false} BodyClosed(reg: Registry, k: nat, format: string)
    requires FormatReady(reg, k, format)
    ensures ClosedPatterns(BodyOf(reg[..k], format).value)
    decreases k, 0
  {
    if format == "" {
      SimplePattern();
    } else {
      FormatSetting(reg, k, format);
      var m := Find(reg, format).value;
      PatternsClosed(reg, m, reg[m].body.template, {});
    }
  }

  /** The parses of the two patterns of a text, a parameter and a rest. */
  lemma JoinPatterns(text: string, b: Compiled, c: Compiled)
    requires Closed(text) && ClosedPatterns(b) && ClosedPatterns(c)
    ensures var j := Joined(text, b, c).0;
      Closed(j) && ReOf(j) == Append(ReOf(text), Append(ReOf(b.matchPattern), ReOf(c.matchPattern)))
    ensures var j := Joined(text, b, c).1;
      Closed(j) && ReOf(j) == Append(ReOf(text), Cat(Capture(ReOf(b.extractPattern)), ReOf(c.extractPattern)))
  {
    hide Closed, ReOf;
    JoinClosed(b.matchPattern, c.matchPattern);
    JoinClosed(text, b.matchPattern + c.matchPattern);
    JoinCapture(b.extractPattern, c.extractPattern);
    JoinClosed(text, "(" + b.extractPattern + ")" + c.extractPattern);
  }

  lemma ClosedJoin(text: string, b: Compiled, c: Compiled, whole: Compiled)
    requires Closed(text) && ClosedPatterns(b) && ClosedPatterns(c)
    requires whole.matchPattern == Joined(text, b, c).0 && whole.extractPattern == Joined(text, b, c).1
    ensures ClosedPatterns(whole)
  {
    hide Closed, ReOf, Joined;
    JoinPatterns(text, b, c);
  }

  // ---------- from the meaning to the patterns ----------

  /** The values in preorder: what the capturing groups must hold. */
  function Flatten(nodes: seq<Node>): (caps: seq<string>)
    ensures |caps| >= |nodes|
    decreases nodes
  {
    if nodes == [] then []
    else [nodes[0].value] + (Flatten(nodes[0].children) + Flatten(nodes[1..]))
  }

  /** Both patterns accept the URI; if no text brings in groups, the groups can hold the values. */
  ghost predicate Matches(e: Engine, c: Compiled, uri: string, nodes: seq<Node>, groups: nat) {
    && ClosedPatterns(c)
    && Accepts(e, ReOf(c.matchPattern), uri) && Accepts(e, ReOf(c.extractPattern), uri)
    && (groups == 0 ==> Captures(e, ReOf(c.extractPattern), uri, Flatten(nodes)))
  }

  lemma {:induction false} MeaningMatches(e: Engine, reg: Registry, k: nat, s: string, seen: set<string>,
                                          uri: string, nodes: seq<Node>)
    requires Setting(reg, k, s, seen) && Fits(e, reg, k, s, uri, nodes)
    ensures Matches(e, CompileFrom(reg[..k], s, seen).value, uri, nodes, TextGroups(reg, k, s))
    decreases k, |s| + 1
  {
    hide Setting, FormatReady, CompileFrom, Matches, Next, Rest, BodyOf, Closed, ReOf, Count, Joined, Fits,
      FitsFormat, Accepts, TextGroups, FormatGroups, ClosedTexts, ClosedFormat;
    SettingFacts(reg, k, s, seen);
    if Next(s).None? {
      TextMatches(e, reg, k, s, seen, uri, nodes);
    } else {
      RestSetting(reg, k, s, seen);
      CompiledStep(reg[..k], s, seen);
      var i := SplitFits(e, reg, k, s, uri, nodes);
      var p := Next(s).value;
      var n := i + |nodes[0].value|;
      MeaningMatches(e, reg, k, Rest(s), seen + {p.name}, uri[n..], nodes[1..]);
      FormatReadyFacts(reg, k, p.format);
      FormatMatches(e, reg, k, p.format, nodes[0].value, nodes[0].children);
      var c := CompileFrom(reg[..k], Rest(s), seen + {p.name}).value;
      SettingFacts(reg, k, Rest(s), seen + {p.name});
      JoinMatches(e, p.text, BodyOf(reg[..k], p.format).value, c, CompileFrom(reg[..k], s, seen).value, uri, i, nodes,
                  FormatGroups(reg, k, p.format), TextGroups(reg, k, Rest(s)));
    }
  }

  lemma SettingFacts(reg: Registry, k: nat, s: string, seen: set<string>)
    requires Setting(reg, k, s, seen)
    ensures Built(reg) && k <= |reg| && ClosedTexts(reg, k, s) && CompileFrom(reg[..k], s, seen).Some?
  {
  }

  lemma FormatReadyFacts(reg: Registry, k: nat, format: string)
    requires FormatReady(reg, k, format)
    ensures Built(reg) && k <= |reg| && ClosedFormat(reg, k, format) && BodyOf(reg[..k], format).Some?
  {
  }

  lemma TextMatches(e: Engine, reg: Registry, k: nat, s: string, seen: set<string>, uri: string, nodes: seq<Node>)
    requires Setting(reg, k, s, seen) && Next(s).None? && Fits(e, reg, k, s, uri, nodes)
    ensures Matches(e, CompileFrom(reg[..k], s, seen).value, uri, nodes, TextGroups(reg, k, s))
  {
    CountNone(ReOf(s));
    if Count(ReOf(s)) == 0 {
      CapturesNothing(e, ReOf(s), uri, []);
    }
  }

  lemma SplitFits(e: Engine, reg: Registry, k: nat, s: string, uri: string, nodes: seq<Node>) returns (i: nat)
    requires k <= |reg| && Fits(e, reg, k, s, uri, nodes) && Next(s).Some?
    ensures nodes != [] && i + |nodes[0].value| <= |uri| && uri[i..i + |nodes[0].value|] == nodes[0].value
    ensures FitsFormat(e, reg, k, Next(s).value.format, nodes[0].value, nodes[0].children)
    ensures Lang(e, Next(s).value.text, uri[..i])
    ensures Fits(e, reg, k, Rest(s), uri[i + |nodes[0].value|..], nodes[1..])
  {
    hide Lang, FitsFormat, Next;
    i :| FitsFrom(e, reg, k, s, uri, nodes, i);
  }

  lemma SimpleMatches(e: Engine, value: string)
    requires Lang(e, "[^/]+", value)
    ensures Matches(e, SIMPLE_FORMAT, value, [], 0)
  {
    SimplePattern();
    CountNone(ReOf("[^/]+"));
    CapturesNothing(e, ReOf("[^/]+"), value, []);
  }

  lemma {:induction false} FormatMatches(e: Engine, reg: Registry, k: nat, format: string, value: string,
      children: seq<Node>)
    requires FormatReady(reg, k, format)
    requires FitsFormat(e, reg, k, format, value, children)
    ensures Matches(e, BodyOf(reg[..k], format).value, value, children, FormatGroups(reg, k, format))
    decreases k, 0
  {
    if format == "" {
      SimpleMatches(e, value);
    } else {
      FormatSetting(reg, k, format);
      var m := Find(reg, format).value;
      MeaningMatches(e, reg, m, reg[m].body.template, {}, value, children);
    }
  }

  /** A text, a value and a rest that match separately match together. */
  lemma JoinMatches(e: Engine, text: string, b: Compiled, c: Compiled, whole: Compiled,
                    uri: string, i: nat, nodes: seq<Node>, inside: nat, rest: nat)
    requires whole.matchPattern == Joined(text, b, c).0 && whole.extractPattern == Joined(text, b, c).1
    requires Closed(text) && nodes != [] && i + |nodes[0].value| <= |uri|
    requires Lang(e, text, uri[..i]) && uri[i..i + |nodes[0].value|] == nodes[0].value
    requires Matches(e, b, nodes[0].value, nodes[0].children, inside)
    requires Matches(e, c, uri[i + |nodes[0].value|..], nodes[1..], rest)
    ensures Matches(e, whole, uri, nodes, Count(ReOf(text)) + inside + rest)
  {
    hide Closed, ReOf, Joined, Accepts, Captures, Flatten, NoCapture, Chain, Count;
    JoinPatterns(text, b, c);
    ChainOf(text);
    ChainOf(b.matchPattern);
    var n := i + |nodes[0].value|;
    var r := ReOf(text);
    AcceptsThree(e, r, ReOf(b.matchPattern), ReOf(c.matchPattern), uri, i, n);
    AcceptsGroup(e, r, ReOf(b.extractPattern), ReOf(c.extractPattern), uri, i, n);
    if Count(r) + inside + rest == 0 {
      CountNone(r);
      CapturesGroup(e, r, ReOf(b.extractPattern), ReOf(c.extractPattern), uri, i, n,
                    Flatten(nodes[0].children), Flatten(nodes[1..]));
      FlattenStep(nodes);
    }
  }

  lemma ChainOf(t: string)
    requires Closed(t)
    ensures Chain(ReOf(t))
  {
    SeqIsChain(t);
  }

  lemma FlattenStep(nodes: seq<Node>)
    requires nodes != []
    ensures Flatten(nodes) == [nodes[0].value] + (Flatten(nodes[0].children) + Flatten(nodes[1..]))
  {
  }

  // ---------- from the patterns to the meaning ----------

  lemma FitsIntro(e: Engine, reg: Registry, k: nat, s: string, uri: string, i: nat, node: Node, rest: seq<Node>)
    requires k <= |reg| && Next(s).Some? && node.name == Next(s).value.name
    requires i + |node.value| <= |uri| && uri[i..i + |node.value|] == node.value
    requires Lang(e, Next(s).value.text, uri[..i])
    requires FitsFormat(e, reg, k, Next(s).value.format, node.value, node.children)
    requires Fits(e, reg, k, Rest(s), uri[i + |node.value|..], rest)
    ensures Fits(e, reg, k, s, uri, [node] + rest)
  {
    Uncons(node, rest);
    hide Lang, FitsFormat, Next, Rest;
    assert FitsFrom(e, reg, k, s, uri, [node] + rest, i) by {
      hide Fits;
    }
  }

  lemma Uncons(node: Node, rest: seq<Node>)
    ensures var nodes := [node] + rest; nodes[0] == node && nodes[1..] == rest
  {}

  /** Which of the two patterns is meant. */
  function Pattern(c: Compiled, forExtraction: bool): string {
    if forExtraction then c.extractPattern else c.matchPattern
  }

  lemma TextFits(e: Engine, reg: Registry, k: nat, s: string, seen: set<string>, uri: string, extraction: bool)
    requires Setting(reg, k, s, seen) && Next(s).None?
    requires Lang(e, Pattern(CompileFrom(reg[..k], s, seen).value, extraction), uri)
    ensures Fits(e, reg, k, s, uri, [])
  {
  }

  lemma TextCaptures(e: Engine, reg: Registry, k: nat, s: string, seen: set<string>, uri: string, caps: seq<string>)
    requires Setting(reg, k, s, seen) && Next(s).None? && TextGroups(reg, k, s) == 0
    requires Closed(CompileFrom(reg[..k], s, seen).value.extractPattern)
    requires Captures(e, ReOf(CompileFrom(reg[..k], s, seen).value.extractPattern), uri, caps)
    ensures Fits(e, reg, k, s, uri, []) && Flatten([]) == caps
  {
    CountNone(ReOf(s));
    CapturesNothing(e, ReOf(s), uri, caps);
  }

  /** A URI that either pattern accepts fits the template. */
  lemma {:induction false} PatternMeans(e: Engine, reg: Registry, k: nat, s: string, seen: set<string>, uri: string,
      extraction: bool)
    returns (nodes: seq<Node>)
    requires Setting(reg, k, s, seen)
    requires Lang(e, Pattern(CompileFrom(reg[..k], s, seen).value, extraction), uri)
    ensures Fits(e, reg, k, s, uri, nodes)
    decreases k, |s| + 1
  {
    hide Setting, FormatReady, CompileFrom, Next, Rest, BodyOf, Fits, FitsFormat, Lang, ClosedPatterns, Joined,
      Compile, Closed, ReOf, TextGroups, FormatGroups, ClosedTexts, ClosedFormat, Count;
    if Next(s).None? {
      nodes := [];
      TextFits(e, reg, k, s, seen, uri, extraction);
    } else {
      SettingFacts(reg, k, s, seen);
      RestSetting(reg, k, s, seen);
      CompiledStep(reg[..k], s, seen);
      var p := Next(s).value;
      SettingFacts(reg, k, Rest(s), seen + {p.name});
      FormatReadyFacts(reg, k, p.format);
      PatternsClosed(reg, k, Rest(s), seen + {p.name});
      BodyClosed(reg, k, p.format);
      var b := BodyOf(reg[..k], p.format).value;
      var c := CompileFrom(reg[..k], Rest(s), seen + {p.name}).value;
      var i, n := SplitPattern(e, p.text, b, c, uri, extraction);
      var children := FormatMeans(e, reg, k, p.format, uri[i..n], extraction);
      var rest := PatternMeans(e, reg, k, Rest(s), seen + {p.name}, uri[n..], extraction);
      var node := Node(p.name, uri[i..n], children);
      FitsIntro(e, reg, k, s, uri, i, node, rest);
      nodes := [node] + rest;
    }
  }

  lemma {:induction false} FormatMeans(e: Engine, reg: Registry, k: nat, format: string, value: string,
      extraction: bool)
    returns (children: seq<Node>)
    requires FormatReady(reg, k, format)
    requires Lang(e, Pattern(BodyOf(reg[..k], format).value, extraction), value)
    ensures FitsFormat(e, reg, k, format, value, children)
    decreases k, 0
  {
    if format == "" {
      children := [];
    } else {
      FormatSetting(reg, k, format);
      var m := Find(reg, format).value;
      children := PatternMeans(e, reg, m, reg[m].body.template, {}, value, extraction);
    }
  }

  /** Where the text and the value of an accepted URI end. */
  lemma SplitPattern(e: Engine, text: string, b: Compiled, c: Compiled, uri: string, extraction: bool)
      returns (i: nat, n: nat)
    requires Closed(text) && ClosedPatterns(b) && ClosedPatterns(c)
    requires Lang(e, if extraction then Joined(text, b, c).1 else Joined(text, b, c).0, uri)
    ensures i <= n <= |uri| && Lang(e, text, uri[..i])
    ensures Lang(e, Pattern(b, extraction), uri[i..n]) && Lang(e, Pattern(c, extraction), uri[n..])
  {
    hide Closed, ReOf, Accepts, NoCapture, Chain;
    JoinPatterns(text, b, c);
    ChainOf(text);
    ChainOf(b.matchPattern);
    if extraction {
      i, n := SplitGroup(e, ReOf(text), ReOf(b.extractPattern), ReOf(c.extractPattern), uri);
    } else {
      i, n := SplitThree(e, ReOf(text), ReOf(b.matchPattern), ReOf(c.matchPattern), uri);
    }
  }

  /** What the groups of the extract pattern hold after any match are the values of a fitting tree, in preorder. */
  lemma {:induction false} CapturesMean(e: Engine, reg: Registry, k: nat, s: string, seen: set<string>, uri: string,
      caps: seq<string>)
    returns (nodes: seq<Node>)
    requires Setting(reg, k, s, seen) && TextGroups(reg, k, s) == 0
    requires Closed(CompileFrom(reg[..k], s, seen).value.extractPattern)
    requires Captures(e, ReOf(CompileFrom(reg[..k], s, seen).value.extractPattern), uri, caps)
    ensures Fits(e, reg, k, s, uri, nodes) && Flatten(nodes) == caps
    decreases k, |s| + 1
  {
    hide Setting, FormatReady, CompileFrom, Next, Rest, BodyOf, Fits, FitsFormat, Lang, Joined, Closed, ReOf,
      Captures, Flatten, TextGroups, FormatGroups, ClosedTexts, ClosedFormat, Count;
    if Next(s).None? {
      nodes := [];
      TextCaptures(e, reg, k, s, seen, uri, caps);
    } else {
      SettingFacts(reg, k, s, seen);
      RestSetting(reg, k, s, seen);
      CompiledStep(reg[..k], s, seen);
      var p := Next(s).value;
      SettingFacts(reg, k, Rest(s), seen + {p.name});
      FormatReadyFacts(reg, k, p.format);
      PatternsClosed(reg, k, Rest(s), seen + {p.name});
      BodyClosed(reg, k, p.format);
      var b := BodyOf(reg[..k], p.format).value;
      var c := CompileFrom(reg[..k], Rest(s), seen + {p.name}).value;
      var i, n, m := SplitGroups(e, p.text, b, c, uri, caps);
      var children := FormatCaptures(e, reg, k, p.format, uri[i..n], caps[1..m]);
      var rest := CapturesMean(e, reg, k, Rest(s), seen + {p.name}, uri[n..], caps[m..]);
      var node := Node(p.name, uri[i..n], children);
      FitsIntro(e, reg, k, s, uri, i, node, rest);
      nodes := [node] + rest;
      FlattenCons(node, rest);
      assert caps == [caps[0]] + (caps[1..m] + caps[m..]);
    }
  }

  lemma FlattenCons(node: Node, rest: seq<Node>)
    ensures Flatten([node] + rest) == [node.value] + (Flatten(node.children) + Flatten(rest))
  {
    assert ([node] + rest)[1..] == rest;
  }

  lemma {:induction false} FormatCaptures(e: Engine, reg: Registry, k: nat, format: string, value: string,
      caps: seq<string>)
    returns (children: seq<Node>)
    requires FormatReady(reg, k, format) && FormatGroups(reg, k, format) == 0
    requires Closed(BodyOf(reg[..k], format).value.extractPattern)
    requires Captures(e, ReOf(BodyOf(reg[..k], format).value.extractPattern), value, caps)
    ensures FitsFormat(e, reg, k, format, value, children) && Flatten(children) == caps
    decreases k, 0
  {
    if format == "" {
      SimplePattern();
      CountNone(ReOf("[^/]+"));
      CapturesNothing(e, ReOf("[^/]+"), value, caps);
      children := [];
    } else {
      FormatSetting(reg, k, format);
      var m := Find(reg, format).value;
      children := CapturesMean(e, reg, m, reg[m].body.template, {}, value, caps);
    }
  }

  lemma SplitGroups(e: Engine, text: string, b: Compiled, c: Compiled, uri: string, caps: seq<string>)
    returns (i: nat, n: nat, m: nat)
    requires Closed(text) && Count(ReOf(text)) == 0 && ClosedPatterns(b) && ClosedPatterns(c)
    requires Closed(Joined(text, b, c).1) && Captures(e, ReOf(Joined(text, b, c).1), uri, caps)
    ensures i <= n <= |uri| && 1 <= m <= |caps| && Lang(e, text, uri[..i]) && caps[0] == uri[i..n]
    ensures Captures(e, ReOf(b.extractPattern), uri[i..n], caps[1..m])
    ensures Captures(e, ReOf(c.extractPattern), uri[n..], caps[m..])
  {
    hide Closed, ReOf, Accepts, Captures, NoCapture, Chain;
    JoinPatterns(text, b, c);
    ChainOf(text);
    CountNone(ReOf(text));
    i, n, m := SplitCapturesGroup(e, ReOf(text), ReOf(b.extractPattern), ReOf(c.extractPattern), uri, caps);
  }
}
