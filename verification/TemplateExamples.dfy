/**
 Templates for which the compiler's promises fail: groups that its test does not see, and
 a format with an alternative outside of parentheses.
 */
module TemplateExamples {
  import opened Wrappers
  import opened RegexSyntax
  import opened RegexMatch
  import opened RegexGroups
  import opened TemplateLexer
  import opened TemplateCompiler
  import opened TemplateMeaning
  import opened TemplateExtract
  import opened TemplateAgreement
  import opened TemplateSkeleton
  import opened RegexFill

  lemma LexBraced(text: string, content: string)
    requires (forall j :: 0 <= j < |text| ==> !Special(text[j])) && BraceName(content + "}") == Some(content)
    ensures Next(text + "{" + content + "}") == Some(BraceParam(text, content))
    ensures Rest(text + "{" + content + "}") == ""
  {
    var s := text + "{" + content + "}";
    assert s[|text| + 1..] == content + "}" && s[..|text|] == text;
    assert forall j :: 0 <= j < |text| ==> s[j] == text[j];
    FirstStartIs(s, |text|);
    BraceParamPrints(text, content);
  }

  lemma BraceNameX(content: string)
    requires content != "" && NameStart(content[0]) && '}' !in content
    ensures BraceName(content + "}") == Some(content)
  {
    BraceNameIs(content, "");
    assert "}" + "" == "}";
  }

  /** Two groups that the test for capturing groups lets pass. */
  predicate Missed(inner: string) {
    inner == "a" || inner == "[)]"
  }

  /**
   The test for capturing groups lets "(a)" and "([)])" pass. The extract pattern then has a
   group more than extraction reads, and the parameter gets the text of that group.
   */
  lemma MissedGroup(inner: string, uri: string, taken: string, value: string)
    requires Missed(inner)
    ensures var text := "(" + inner + ")";
      && !Flagged(text + "{x}")
      && Compile([], text + "{x}") == Some(Compiled(text + "{x}", text + "[^/]+", text + "([^/]+)", ["x"], [""]))
      && ClosedTexts([], 0, text + "{x}") && TextGroups([], 0, text + "{x}") == 1
      && Extract([], Compile([], text + "{x}").value, Some([uri, taken, value])) ==
           Some((uri, Some(([Node("x", taken, [])], 2))))
  {
    hide Compile, Closed, ReOf, Extract, Flagged, ClosedTexts, TextGroups;
    var text := "(" + inner + ")";
    NotFlagged(inner);
    MissedTemplate(inner);
    MissedCount(inner);
    FirstGroupIsRead(Compiled(text + "{x}", text + "[^/]+", text + "([^/]+)", ["x"], [""]), uri, taken, value);
  }

  lemma FirstGroupIsRead(c: Compiled, uri: string, taken: string, value: string)
    requires Compile([], c.template) == Some(c) && c.params == ["x"] && c.formats == [""]
    ensures Extract([], c, Some([uri, taken, value])) == Some((uri, Some(([Node("x", taken, [])], 2))))
  {
    hide Compile;
    CompiledReaches([], c);
    var results := [uri, taken, value];
    assert [""][1..] == [] && ["x"][1..] == [];
    ValuesStep([], 0, results, 1, ["x"], [""], {});
    assert Inner([], 0, results, 2, "") == Some(([], 2));
    NoParameters([], 0, results, 2, ["x"][1..], [""][1..], {} + {"x"});
    BeforeEnd([Node("x", taken, [])], 2);
    assert ValuesFrom([], 0, results, 1, ["x"], [""], {}) == Some(([Node("x", taken, [])], 2));
  }

  lemma NotFlagged(inner: string)
    requires Missed(inner)
    ensures !Flagged("(" + inner + ")" + "{x}")
  {
    var s := "(" + inner + ")" + "{x}";
    IndexIs(s[2..], ')', 0);
    assert !FlaggedAt(s, 0);
    assert forall i :: 1 <= i < |s| ==> s[i] != '(';
  }

  lemma MissedNext(inner: string)
    requires Missed(inner)
    ensures var text := "(" + inner + ")";
      Next(text + "{x}") == Some(Param(text, "x", "", Brace)) && Rest(text + "{x}") == ""
  {
    var text := "(" + inner + ")";
    BraceNameX("x");
    LexBraced(text, "x");
    hide *;
    BracedX(text);
    PlainX(text);
  }

  lemma BracedX(text: string)
    ensures text + "{x}" == text + "{" + "x" + "}"
  {}

  lemma PlainX(text: string)
    ensures BraceParam(text, "x") == Param(text, "x", "", Brace)
  {
    IndexIs("x", ':', 1);
  }

  lemma MissedTemplate(inner: string)
    requires Missed(inner)
    ensures var text := "(" + inner + ")";
      Compile([], text + "{x}") == Some(Compiled(text + "{x}", text + "[^/]+", text + "([^/]+)", ["x"], [""]))
  {
    hide Flagged, Next, Rest;
    var text := "(" + inner + ")";
    NotFlagged(inner);
    MissedNext(inner);
    NoneLeft("");
    assert CompileFrom([], "", {} + {"x"}) == Some(Compiled("", "", "", [], []));
    assert ["x"] + [] == ["x"] && [""] + [] == [""];
    assert BodyOf([], "") == Some(SIMPLE_FORMAT);
    assert text + ("[^/]+" + "") == text + "[^/]+";
    assert text + ("(" + "[^/]+" + ")" + "") == text + "([^/]+)";
  }

  lemma MissedCount(inner: string)
    requires Missed(inner)
    ensures var s := "(" + inner + ")" + "{x}"; ClosedTexts([], 0, s) && TextGroups([], 0, s) == 1
  {
    var text := "(" + inner + ")";
    var s := text + "{x}";
    hide Next, Rest, Closed, ReOf;
    MissedNext(inner);
    ParsedInner(inner);
    ParsedNothing();
    JoinCapture(inner, "");
    NoneLeft("");
    assert text + "" == text;
    assert Count(ReOf("")) == 0 && Count(ReOf(text)) == 1;
    assert ClosedTexts([], 0, "") && TextGroups([], 0, "") == 0;
    assert Next(s).value.text == text;
  }

  lemma ParsedInner(inner: string)
    requires Missed(inner)
    ensures Closed(inner) && Count(ReOf(inner)) == 0
  {
    if inner == "a" {
      ParsedChar('a');
    } else {
      ParsedClass();
    }
  }

  lemma ParsedClass()
    ensures Closed("[)]") && ReOf("[)]") == Cat(Atom("[)]"), Empty)
  {
    var s := "[)]";
    assert s[1..] == ")]" && s[1..][1..] == "]";
    assert ClassLen("]") == 1 && ClassLen(")]") == 2;
    assert s[..3] == s && s[3..] == "";
    assert ParseAtom(s) == Ok(Atom(s), "");
    assert ParseTerm(s) == Ok(Atom(s), "");
    assert ParseSeq("") == Ok(Empty, "");
  }

  /** Conversely the test refuses parentheses that are escaped and open no group. */
  lemma EscapedParenthesesAreFlagged()
    ensures Flagged("\\(ab\\)")
    ensures Closed("\\(ab\\)") && Count(ReOf("\\(ab\\)")) == 0
  {
    var s := "\\(ab\\)";
    assert s[1] == '(' && s[3..] == "b\\)";
    IndexIs(s[3..], ')', 2);
    assert FlaggedAt(s, 1);
    hide Flagged;
    EscapedParse();
  }

  lemma EscapedParse()
    ensures Closed("\\(ab\\)") && Count(ReOf("\\(ab\\)")) == 0
  {
    hide ParseSeq;
    var t1 := "\\" + [')'] + "";
    var t2 := ['b'] + t1;
    var t3 := ['a'] + t2;
    ParsedNothing();
    ParsedEscape(')', "");
    ParsedBefore('b', t1);
    ParsedBefore('a', t2);
    ParsedEscape('(', t3);
    EscapedPieces();
  }

  lemma EscapedPieces()
    ensures "\\(ab\\)" == "\\" + ['('] + (['a'] + (['b'] + ("\\" + [')'] + "")))
  {
  }

  lemma ParsedEscape(c: char, rest: string)
    requires ParseSeq(rest).Ok? && NoQuant(rest)
    ensures ParseSeq("\\" + [c] + rest) == Ok(Cat(Atom("\\" + [c]), ParseSeq(rest).re), ParseSeq(rest).rest)
  {
    var s := "\\" + [c] + rest;
    assert s[..2] == "\\" + [c] && s[2..] == rest;
    assert QuantLen(rest) == 0;
    assert ParseAtom(s) == Ok(Atom("\\" + [c]), rest);
    assert ParseTerm(s) == Ok(Atom("\\" + [c]), rest);
  }

  lemma ParsedNothing()
    ensures Closed("") && ReOf("") == Empty
  {
  }

  lemma ParsedChar(c: char)
    requires c in "abx"
    ensures Closed([c]) && ReOf([c]) == Cat(Atom([c]), Empty)
  {
    var s := [c];
    assert s[..1] == s && s[1..] == "";
    assert !QuantChar(c) && c != '|' && c != ')';
    assert ParseAtom(s) == Ok(Atom(s), "");
    assert ParseTerm(s) == Ok(Atom(s), "");
    assert ParseSeq("") == Ok(Empty, "");
  }

  /** The engine whose atoms are single characters. */
  const LITERAL := Engine((a: string, c: char) => a == [c], (q: string, n: nat) => true)

  const EITHER := [Format("f", Compiled("a|b", "a|b", "a|b", [], []))]

  /**
   A format with a top-level alternation splits the match pattern: it accepts "b" for
   the template "x{p:f}", which the extract pattern does not.
   */
  lemma AlternationSplits()
    ensures Built(EITHER)
    ensures Compile(EITHER, "x{p:f}") == Some(Compiled("x{p:f}", "xa|b", "x(a|b)", ["p"], ["f"]))
    ensures ParseAlt("xa|b").Ok? && ParseAlt("xa|b").rest == "" && Accepts(LITERAL, ParseAlt("xa|b").re, "b")
    ensures Closed("x(a|b)") && !Accepts(LITERAL, ReOf("x(a|b)"), "b")
  {
    hide Compile, Built, Closed, ReOf, ParseAlt, Accepts;
    EitherBuilt();
    EitherCompiles();
    EitherMatches();
    EitherExtracts();
  }

  lemma EitherBuilt()
    ensures Built(EITHER)
  {
    NoneLeft("a|b");
    assert forall j :: 0 <= j < |"a|b"| ==> "a|b"[j] != '(';
  }

  lemma NoGroup(s: string)
    requires forall j :: 0 <= j < |s| ==> s[j] != '('
    ensures !Flagged(s)
  {
  }

  lemma EitherCompiles()
    ensures Compile(EITHER, "x{p:f}") == Some(Compiled("x{p:f}", "xa|b", "x(a|b)", ["p"], ["f"]))
  {
    hide Next, Rest, Flagged, BodyOf;
    NoGroup("x{p:f}");
    EitherNext();
    NoneLeft("");
    EitherBody();
    EitherStrings();
    assert CompileFrom(EITHER, "", {} + {"p"}) == Some(Compiled("", "", "", [], []));
  }

  lemma EitherStrings()
    ensures "x" + ("a|b" + "") == "xa|b" && "x" + ("(" + "a|b" + ")" + "") == "x(a|b)"
    ensures ["p"] + [] == ["p"] && ["f"] + [] == ["f"]
  {
  }

  lemma EitherTokens()
    ensures "x{p:f}" == "x" + "{" + "p:f" + "}" && "p:f"[..1] == "p" && "p:f"[2..] == "f"
    ensures ['x'] + "(a|b)" == "x(a|b)"
  {
  }

  lemma EitherBody()
    ensures BodyOf(EITHER, "f") == Some(Compiled("a|b", "a|b", "a|b", [], []))
  {
  }

  lemma EitherNext()
    ensures Next("x{p:f}") == Some(Param("x", "p", "f", BraceColon)) && Rest("x{p:f}") == ""
  {
    hide Next, Rest, BraceName;
    BraceNameX("p:f");
    LexBraced("x", "p:f");
    EitherTokens();
    IndexIs("p:f", ':', 1);
  }

  lemma ParsedBefore(c: char, rest: string)
    requires c in "abx" && NoQuant(rest) && ParseSeq(rest).Ok?
    ensures ParseSeq([c] + rest) == Ok(Cat(Atom([c]), ParseSeq(rest).re), ParseSeq(rest).rest)
  {
    var s := [c] + rest;
    assert s[..1] == [c] && s[1..] == rest;
    assert ParseAtom(s) == Ok(Atom([c]), rest);
    assert QuantLen(rest) == 0;
    assert ParseTerm(s) == Ok(Atom([c]), rest);
  }

  const A := Cat(Atom("a"), Empty)
  const B := Cat(Atom("b"), Empty)

  /** The alternative after a bar, up to the end or a closing parenthesis. */
  lemma BarParses(tail: string)
    requires tail == "" || tail == ")"
    ensures ParseSeq("|b" + tail) == Ok(Empty, "|b" + tail)
    ensures ("|b" + tail)[1..] == "b" + tail && ParseAlt("b" + tail) == Ok(B, tail)
  {
    assert ParseSeq(tail) == Ok(Empty, tail);
    ParsedBefore('b', tail);
    assert ("|b" + tail)[1..] == "b" + tail;
  }

  lemma EitherMatches()
    ensures ParseAlt("xa|b").Ok? && ParseAlt("xa|b").rest == "" && Accepts(LITERAL, ParseAlt("xa|b").re, "b")
  {
    BarParses("");
    assert "|b" + "" == "|b" && "b" + "" == "b" && ['a'] + "|b" == "a|b" && ['x'] + "a|b" == "xa|b";
    ParsedBefore('a', "|b");
    ParsedBefore('x', "a|b");
    hide ParseSeq;
    assert ParseAlt("xa|b") == Ok(Alt(Cat(Atom("x"), A), B), "");
    assert "b"[..1] == "b" && "b"[1..] == "";
    AcceptsCat(LITERAL, Atom("b"), Empty, "b", 1);
  }

  lemma EitherGroups()
    ensures ParseSeq("(a|b)") == Ok(Cat(Capture(Alt(A, B)), Empty), "")
  {
    BarParses(")");
    assert "|b" + ")" == "|b)" && "b" + ")" == "b)" && ['a'] + "|b)" == "a|b)";
    ParsedBefore('a', "|b)");
    assert ParseAlt("a|b)") == Ok(Alt(A, B), ")");
    var s := "(a|b)";
    assert s[1..] == "a|b)" && ")"[1..] == "";
    assert ParseAtom(s) == Ok(Capture(Alt(A, B)), "");
    assert ParseTerm(s) == Ok(Capture(Alt(A, B)), "");
    assert ParseSeq("") == Ok(Empty, "");
  }

  lemma EitherExtracts()
    ensures Closed("x(a|b)") && !Accepts(LITERAL, ReOf("x(a|b)"), "b")
  {
    hide ParseSeq, Accepts;
    EitherGroups();
    EitherTokens();
    ParsedBefore('x', "(a|b)");
    NotX(Cat(Capture(Alt(A, B)), Empty));
  }

  lemma NotX(r: Re)
    ensures !Accepts(LITERAL, Cat(Atom("x"), r), "b")
  {
    if Accepts(LITERAL, Cat(Atom("x"), r), "b") {
      var i := SplitCat(LITERAL, Atom("x"), r, "b");
      assert false;
    }
  }

  const UNBALANCED := [Format("f", Compiled("a)", "a)", "a)", [], []))]

  /**
   For a format that is no pattern on its own there is no rule: in the template "(?:{p:f}"
   the format "a)" gives the same expression in both patterns.
   */
  lemma UnbalancedFormatsCanAgree()
    ensures Built(UNBALANCED) && !Whole(UNBALANCED[0].body.matchPattern)
    ensures var c := Compile(UNBALANCED, "(?:{p:f}");
      c == Some(Compiled("(?:{p:f}", "(?:a)", "(?:(a))", ["p"], ["f"])) && Agree(c.value)
  {
    hide Whole, AltOf, Erase, Compile, Built;
    UnbalancedBuilt();
    UnbalancedCompiles();
    UnbalancedStrings();
    AWhole();
    GroupParse("a");
    PlainGroupParse("a");
    PlainGroupParse("(a)");
    SameWithoutGroup();
  }

  lemma UnbalancedBuilt()
    ensures Built(UNBALANCED)
  {
    NothingHere("a)");
    NoneLeft("a)");
    NoGroup("a)");
  }

  lemma NothingHere(s: string)
    requires forall j :: 0 <= j < |s| ==> !Special(s[j])
    ensures forall j :: 0 <= j < |s| ==> !Starts(s, j)
  {
  }

  lemma UnbalancedStrings()
    ensures "(" + "a" + ")" == "(a)" && "(?:" + "a" + ")" == "(?:a)" && "(?:" + "(a)" + ")" == "(?:(a))"
    ensures "(?:" + ("a)" + "") == "(?:a)" && "(?:" + ("(" + "a)" + ")" + "") == "(?:(a))"
    ensures ["p"] + [] == ["p"] && ["f"] + [] == ["f"]
  {
  }

  lemma UnbalancedTokens()
    ensures "(?:{p:f}"[4..] == "p:f" + "}" && "(?:{p:f}"[..3] == "(?:" && "p:f"[..1] == "p" && "p:f"[2..] == "f"
    ensures Print(Param("(?:", "p", "f", BraceColon)) + "" == "(?:{p:f}"
  {
  }

  lemma UnbalancedStart()
    ensures var s := "(?:{p:f}"; (forall j :: 0 <= j < 3 ==> !Starts(s, j)) && Starts(s, 3)
  {
    var s := "(?:{p:f}";
    UnbalancedTokens();
    BraceNameX("p:f");
    hide BraceName;
    assert !Starts(s, 0) && !Starts(s, 1) && !Starts(s, 2);
  }

  lemma UnbalancedNext()
    ensures Next("(?:{p:f}") == Some(Param("(?:", "p", "f", BraceColon)) && Rest("(?:{p:f}") == ""
  {
    hide Next, FirstStart, BraceName, Starts;
    UnbalancedStart();
    UnbalancedTokens();
    BraceNameX("p:f");
    FirstStartIs("(?:{p:f}", 3);
    NextBraceIs("(?:{p:f}", 3);
    IndexIs("p:f", ':', 1);
  }

  lemma UnbalancedFlag()
    ensures !Flagged("(?:{p:f}")
  {
    var s := "(?:{p:f}";
    assert !FlaggedAt(s, 0);
    assert forall i :: 1 <= i < |s| ==> s[i] != '(';
  }

  lemma UnbalancedBody()
    ensures BodyOf(UNBALANCED, "f") == Some(Compiled("a)", "a)", "a)", [], []))
  {
  }

  lemma UnbalancedCompiles()
    ensures Compile(UNBALANCED, "(?:{p:f}") == Some(Compiled("(?:{p:f}", "(?:a)", "(?:(a))", ["p"], ["f"]))
  {
    hide Next, Rest, Flagged, BodyOf;
    UnbalancedFlag();
    UnbalancedNext();
    NoneLeft("");
    UnbalancedBody();
    UnbalancedStrings();
    assert CompileFrom(UNBALANCED, "", {} + {"p"}) == Some(Compiled("", "", "", [], []));
  }

  lemma AWhole()
    ensures Whole("a") && AltOf("a") == A && !Whole("a)")
  {
    ParsedChar('a');
    ClosedIsWhole("a");
    WholeBeforeClose("a", "");
    assert "a" + (")" + "") == "a)";
  }

  lemma SameWithoutGroup()
    ensures Erase(Cat(Group(A), Empty)) == Erase(Cat(Group(Cat(Capture(A), Empty)), Empty))
  {
  }

  lemma PlainGroupParse(b: string)
    requires Whole(b)
    ensures Whole("(?:" + b + ")") && AltOf("(?:" + b + ")") == Cat(Group(AltOf(b)), Empty)
  {
    var p := "(?:" + b + ")";
    WholeBeforeClose(b, "");
    assert p[3..] == b + (")" + "");
    assert ")" + "" == ")" && ")"[1..] == "";
    assert ParseBody(p[3..], false) == Ok(Group(AltOf(b)), "");
    hide ParseBody, ParseAlt;
    assert ParseAtom(p) == Ok(Group(AltOf(b)), "");
    ParsedAtom(p, Group(AltOf(b)));
  }

  // ---------- a parameter in an optional group ----------

  /** A parameter in an optional group is placed, and brings in no group of its own. */
  lemma OptionalParameter()
    ensures PlacedTexts([], 0, "(?:/{x})?", '#') && SkeletonGroups([], 0, "(?:/{x})?", '#') == 0
  {
    hide Next, Rest, ParseAlt, Skeleton, Count, Placed, PlacedFormats, FormatsGroups;
    NoHash();
    OptionalSkeleton();
    OptionalParse();
    OptionalFormats();
  }

  lemma NoHash()
    ensures Placeholder('#') && '#' !in "(?:/{x})?"
  {}

  lemma OptionalFormats()
    ensures PlacedFormats([], 0, "(?:/{x})?", '#') && FormatsGroups([], 0, "(?:/{x})?", '#') == 0
  {
    hide Next, Rest;
    OptionalNext();
    assert PlacedFormats([], 0, ")?", '#') && FormatsGroups([], 0, ")?", '#') == 0;
  }

  lemma OptionalNext()
    ensures Next("(?:/{x})?") == Some(Param("(?:/", "x", "", Brace)) && Rest("(?:/{x})?") == ")?" && Next(")?") == None
  {
    hide Next, FirstStart, BraceName, BraceParam, Starts;
    OptionalStart();
    OptionalName();
    OptionalStrings();
    FirstStartIs("(?:/{x})?", 4);
    NextBraceIs("(?:/{x})?", 4);
    NothingStarts();
    NoneLeft(")?");
  }

  lemma OptionalStart()
    ensures var s := "(?:/{x})?"; (forall j :: 0 <= j < 4 ==> !Starts(s, j)) && Starts(s, 4)
  {
    var s := "(?:/{x})?";
    OptionalStrings();
    OptionalName();
    hide BraceName;
    assert !Starts(s, 0) && !Starts(s, 1) && !Starts(s, 2) && !Starts(s, 3);
  }

  lemma OptionalName()
    ensures BraceName("x})?") == Some("x") && BraceParam("(?:/", "x") == Param("(?:/", "x", "", Brace)
  {
    IndexIs("x})?", '}', 1);
    IndexIs("x", ':', 1);
    assert "x})?"[..1] == "x";
  }

  lemma NothingStarts()
    ensures forall j :: 0 <= j < |")?"| ==> !Starts(")?", j)
  {
  }

  lemma OptionalStrings()
    ensures "(?:/{x})?"[5..] == "x})?" && "(?:/{x})?"[..4] == "(?:/"
    ensures Print(Param("(?:/", "x", "", Brace)) + ")?" == "(?:/{x})?"
    ensures "(?:/" + (['#'] + ")?") == "(?:/#)?"
  {
  }

  lemma OptionalSkeleton()
    ensures Skeleton("(?:/{x})?", '#') == "(?:/#)?"
  {
    hide Next, Rest;
    OptionalNext();
    OptionalStrings();
    assert Skeleton(")?", '#') == ")?";
  }

  const SLASH := Cat(Atom("/"), Cat(Atom("#"), Empty))

  lemma CharParse(c: char, rest: string)
    requires (c == '/' || c == '#') && NoQuant(rest) && ParseSeq(rest).Ok?
    ensures ParseSeq([c] + rest) == Ok(Cat(Atom([c]), ParseSeq(rest).re), ParseSeq(rest).rest)
  {
    var s := [c] + rest;
    assert s[..1] == [c] && s[1..] == rest;
    assert ParseAtom(s) == Ok(Atom([c]), rest);
    assert QuantLen(rest) == 0;
    assert ParseTerm(s) == Ok(Atom([c]), rest);
  }

  lemma SlashParse()
    ensures ParseBody("/#)?", false) == Ok(Group(SLASH), "?")
  {
    assert ParseSeq(")?") == Ok(Empty, ")?");
    CharParse('#', ")?");
    CharParse('/', ['#'] + ")?");
    hide ParseSeq;
    assert ['/'] + (['#'] + ")?") == "/#)?" && ")?"[1..] == "?";
  }

  lemma OptionalParse()
    ensures Whole("(?:/#)?") && AltOf("(?:/#)?") == Cat(Rep(Group(SLASH), "?"), Empty)
    ensures Placed(AltOf("(?:/#)?"), '#') && Count(AltOf("(?:/#)?")) == 0
  {
    hide ParseAtom, ParseTerm;
    OptionalTerm();
    assert ParseSeq("") == Ok(Empty, "");
    assert ParseSeq("(?:/#)?") == Ok(Cat(Rep(Group(SLASH), "?"), Empty), "");
    hide ParseSeq;
  }

  lemma OptionalAtom()
    ensures ParseAtom("(?:/#)?") == Ok(Group(SLASH), "?")
  {
    SlashParse();
    hide ParseBody;
    assert "(?:/#)?"[3..] == "/#)?";
  }

  lemma OptionalTerm()
    ensures ParseTerm("(?:/#)?") == Ok(Rep(Group(SLASH), "?"), "")
  {
    hide ParseAtom;
    OptionalAtom();
    assert "?"[..1] == "?" && "?"[1..] == "";
  }
}
