/**
 When the two patterns of a template agree, and when the groups of the extract pattern
 are those that extraction reads: in both cases exactly when the texts bring in nothing
 that the compiler does not know of.
 */
module TemplateAgreement {
  import opened Wrappers
  import opened RegexSyntax
  import opened RegexMatch
  import opened RegexGroups
  import opened TemplateLexer
  import opened TemplateCompiler
  import opened TemplateMeaning
  import opened TemplateExtract

  // ---------- the groups of the extract pattern ----------

  lemma JoinCount(text: string, b: Compiled, c: Compiled)
    requires Closed(text) && ClosedPatterns(b) && ClosedPatterns(c)
    ensures var j := Joined(text, b, c).1;
      Closed(j) && Count(ReOf(j)) ==
        Count(ReOf(text)) + (1 + Count(ReOf(b.extractPattern))) + Count(ReOf(c.extractPattern))
  {
    hide Closed, ReOf;
    JoinPatterns(text, b, c);
    ChainOf(text);
    CountAppend(ReOf(text), Cat(Capture(ReOf(b.extractPattern)), ReOf(c.extractPattern)));
  }

  ghost predicate Counted(c: Compiled, read: nat, texts: nat) {
    ClosedPatterns(c) && Count(ReOf(c.extractPattern)) == read + texts
  }

  /** The extract pattern has one group for every parameter, nested ones included, and those of the texts. */
  lemma {:induction false} GroupsCounted(reg: Registry, k: nat, s: string, seen: set<string>)
    requires Setting(reg, k, s, seen)
    ensures var c := CompileFrom(reg[..k], s, seen).value;
      Below(reg, k, c.formats) && Counted(c, Groups(reg, k, c.formats), TextGroups(reg, k, s))
    decreases k, |s| + 1
  {
    hide Setting, FormatReady, CompileFrom, Next, Rest, BodyOf, Closed, ReOf, Count, Joined, Below, Resolves, Groups,
      GroupsInside, TextGroups, FormatGroups, ClosedTexts, ClosedFormat, Built, Counted, Find;
    SettingFacts(reg, k, s, seen);
    FormatsBelow(reg, k, s, seen);
    if Next(s).None? {
      TextCounted(reg, k, s, seen);
    } else {
      RestSetting(reg, k, s, seen);
      CompiledStep(reg[..k], s, seen);
      CompiledLists(reg[..k], s, seen);
      var p, c := Next(s).value, CompileFrom(reg[..k], s, seen).value;
      GroupsStep(reg, k, c.formats);
      FormatReadyFacts(reg, k, p.format);
      SettingFacts(reg, k, Rest(s), seen + {p.name});
      GroupsCounted(reg, k, Rest(s), seen + {p.name});
      InsideCounted(reg, k, p.format);
      var c' := CompileFrom(reg[..k], Rest(s), seen + {p.name}).value;
      StepCounted(p.text, BodyOf(reg[..k], p.format).value, c', c,
                  GroupsInside(reg, k, p.format), FormatGroups(reg, k, p.format),
                  Groups(reg, k, c'.formats), TextGroups(reg, k, Rest(s)));
    }
  }

  lemma TextCounted(reg: Registry, k: nat, s: string, seen: set<string>)
    requires Setting(reg, k, s, seen) && Next(s).None?
    requires Below(reg, k, CompileFrom(reg[..k], s, seen).value.formats)
    ensures var c := CompileFrom(reg[..k], s, seen).value;
      Counted(c, Groups(reg, k, c.formats), TextGroups(reg, k, s))
  {
    hide Closed, ReOf, Count, Below;
  }

  lemma StepCounted(text: string, b: Compiled, c: Compiled, whole: Compiled,
                    readB: nat, textsB: nat, readC: nat, textsC: nat)
    requires Closed(text) && Counted(b, readB, textsB) && Counted(c, readC, textsC)
    requires whole.matchPattern == Joined(text, b, c).0 && whole.extractPattern == Joined(text, b, c).1
    ensures Counted(whole, 1 + readB + readC, Count(ReOf(text)) + textsB + textsC)
  {
    hide Closed, ReOf, Count, Joined;
    JoinCount(text, b, c);
    ClosedJoin(text, b, c, whole);
  }

  lemma {:induction false} InsideCounted(reg: Registry, k: nat, format: string)
    requires FormatReady(reg, k, format) && Resolves(reg, k, format)
    ensures Counted(BodyOf(reg[..k], format).value, GroupsInside(reg, k, format), FormatGroups(reg, k, format))
    decreases k, 0
  {
    if format == "" {
      SimpleCounted();
    } else {
      FormatSetting(reg, k, format);
      var m := Find(reg, format).value;
      GroupsCounted(reg, m, reg[m].body.template, {});
    }
  }

  lemma SimpleCounted()
    ensures Counted(SIMPLE_FORMAT, 0, 0)
  {
    SimplePattern();
  }

  lemma CompiledClosed(reg: Registry, c: Compiled)
    requires Built(reg) && Compile(reg, c.template) == Some(c) && ClosedTexts(reg, |reg|, c.template)
    ensures Below(reg, |reg|, c.formats) && Closed(c.extractPattern)
    ensures Count(ReOf(c.extractPattern)) == Groups(reg, |reg|, c.formats) + TextGroups(reg, |reg|, c.template)
  {
    CompiledSetting(reg, c);
    hide Setting, CompileFrom, Compile, Built, Below, Groups, TextGroups, ClosedTexts, Closed, ReOf, Count;
    GroupsCounted(reg, |reg|, c.template, {});
  }

  /**
   The groups of the extract pattern are exactly those that extraction reads if and only if
   the texts have none: then, and only then, reading ends behind the last result.
   */
  lemma GroupsAreReadExactly(reg: Registry, c: Compiled, results: seq<string>)
    requires Built(reg) && Compile(reg, c.template) == Some(c) && ClosedTexts(reg, |reg|, c.template)
    requires Closed(c.extractPattern) && |results| == 1 + Count(ReOf(c.extractPattern))
    ensures var r := Extract(reg, c, Some(results)).value.1;
      r.Some? && (r.value.1 == |results| <==> TextGroups(reg, |reg|, c.template) == 0)
  {
    hide Compile, CompileFrom, Shaped, Groups, Built, Below, Flatten, Distinct, Reaches, Extract, Values, ValuesFrom,
      ReadsAll, TextGroups, ClosedTexts, Closed, ReOf, Count;
    CompiledClosed(reg, c);
    CompiledReaches(reg, c);
    EveryGroupIsRead(reg, |reg|, results, 1, c.params, c.formats, {});
    ExtractIs(reg, c, results);
    Reading(results, 1, ValuesFrom(reg, |reg|, results, 1, c.params, c.formats, {}), Groups(reg, |reg|, c.formats));
  }

  // ---------- alternatives ----------

  /** Every text of the template and of the formats it reaches is a pattern on its own, with alternatives or without. */
  predicate WholeTexts(reg: Registry, k: nat, s: string)
    requires k <= |reg|
    decreases k, |s| + 1
  {
    match Next(s)
    case None => Whole(s)
    case Some(p) => Whole(p.text) && WholeFormat(reg, k, p.format) && WholeTexts(reg, k, Rest(s))
  }

  predicate WholeFormat(reg: Registry, k: nat, format: string)
    requires k <= |reg|
    decreases k, 0
  {
    format == "" ||
    match Find(reg, format)
    case None => true
    case Some(m) => m < k ==> WholeTexts(reg, m, reg[m].body.template)
  }

  function TextBars(t: string): nat {
    if Whole(t) then Bars(AltOf(t)) else 0
  }

  /** The bars outside of parentheses in a template's own texts. */
  function OwnBars(s: string): nat
    decreases |s|
  {
    match Next(s)
    case None => TextBars(s)
    case Some(p) => TextBars(p.text) + OwnBars(Rest(s))
  }

  /** The bars outside of parentheses in the formats that a template reaches. */
  function FormatBars(reg: Registry, k: nat, s: string): nat
    requires k <= |reg|
    decreases k, |s| + 1
  {
    match Next(s)
    case None => 0
    case Some(p) => InsideBars(reg, k, p.format) + FormatBars(reg, k, Rest(s))
  }

  function InsideBars(reg: Registry, k: nat, format: string): nat
    requires k <= |reg|
    decreases k, 0
  {
    if format == "" then 0
    else
      match Find(reg, format)
      case None => 0
      case Some(m) =>
        if m < k then OwnBars(reg[m].body.template) + FormatBars(reg, m, reg[m].body.template) else 0
  }

  /** Without capturing groups both patterns parse to the same expression. */
  ghost predicate Agree(c: Compiled) {
    Whole(c.matchPattern) && Whole(c.extractPattern) && Erase(AltOf(c.matchPattern)) == Erase(AltOf(c.extractPattern))
  }

  ghost predicate Barred(c: Compiled, own: nat, formats: nat) {
    && Whole(c.matchPattern) && Whole(c.extractPattern)
    && Bars(AltOf(c.matchPattern)) == own + formats && Bars(AltOf(c.extractPattern)) == own
    && (formats == 0 ==> Agree(c))
  }

  lemma SpliceFacts(t: string, u: string)
    requires Whole(t) && Whole(u)
    ensures Whole(t + u) && AltOf(t + u) == Splice(AltOf(t), AltOf(u))
    ensures Bars(AltOf(t + u)) == Bars(AltOf(t)) + Bars(AltOf(u))
    ensures Erase(AltOf(t + u)) == Splice(Erase(AltOf(t)), Erase(AltOf(u)))
  {
    SpliceParse(t, u);
    AltIsAlternatives(t);
    AltIsAlternatives(u);
    hide Whole, AltOf, Splice, Erase, Bars, Alternatives;
    SpliceBars(AltOf(t), AltOf(u));
    EraseSplice(AltOf(t), AltOf(u));
  }

  lemma GroupFacts(b: string)
    requires Whole(b)
    ensures var p := "(" + b + ")";
      Whole(p) && Bars(AltOf(p)) == 0 && (Bars(AltOf(b)) == 0 ==> Erase(AltOf(p)) == Erase(AltOf(b)))
  {
    GroupParse(b);
    AltIsAlternatives(b);
    var r := AltOf(b);
    hide Whole, AltOf;
    if Bars(r) == 0 {
      EraseIsChain(r);
      AppendEmpty(Erase(r));
    }
  }

  lemma StepBarred(text: string, b: Compiled, c: Compiled, whole: Compiled,
                   ownB: nat, formatsB: nat, ownC: nat, formatsC: nat)
    requires Whole(text) && Barred(b, ownB, formatsB) && Barred(c, ownC, formatsC)
    requires whole.matchPattern == Joined(text, b, c).0 && whole.extractPattern == Joined(text, b, c).1
    ensures Barred(whole, Bars(AltOf(text)) + ownC, ownB + formatsB + formatsC)
  {
    hide Whole, AltOf, Splice, Erase, Bars;
    var g := "(" + b.extractPattern + ")";
    SpliceFacts(b.matchPattern, c.matchPattern);
    SpliceFacts(text, b.matchPattern + c.matchPattern);
    GroupFacts(b.extractPattern);
    SpliceFacts(g, c.extractPattern);
    SpliceFacts(text, g + c.extractPattern);
  }

  lemma {:induction false} BarsCounted(reg: Registry, k: nat, s: string, seen: set<string>)
    requires Built(reg) && k <= |reg| && WholeTexts(reg, k, s) && CompileFrom(reg[..k], s, seen).Some?
    ensures Barred(CompileFrom(reg[..k], s, seen).value, OwnBars(s), FormatBars(reg, k, s))
    decreases k, |s| + 1
  {
    hide Built, CompileFrom, Next, Rest, BodyOf, Whole, AltOf, Bars, Joined, WholeTexts, WholeFormat, OwnBars,
      TextBars, FormatBars, InsideBars, Barred, Find;
    if Next(s).None? {
      TextBarred(reg, k, s, seen);
    } else {
      CompiledStep(reg[..k], s, seen);
      BarsStep(reg, k, s);
      var p := Next(s).value;
      InsideBarred(reg, k, p.format);
      BarsCounted(reg, k, Rest(s), seen + {p.name});
      var b := BodyOf(reg[..k], p.format).value;
      var c := CompileFrom(reg[..k], Rest(s), seen + {p.name}).value;
      var own := BodyBars(reg, p.format);
      StepBarred(p.text, b, c, CompileFrom(reg[..k], s, seen).value,
                 own, InsideBars(reg, k, p.format) - own, OwnBars(Rest(s)), FormatBars(reg, k, Rest(s)));
    }
  }

  /** The bars in the texts of a format's own template. */
  function BodyBars(reg: Registry, format: string): nat {
    if format == "" then 0
    else match Find(reg, format) case None => 0 case Some(m) => OwnBars(reg[m].body.template)
  }

  lemma TextBarred(reg: Registry, k: nat, s: string, seen: set<string>)
    requires k <= |reg| && WholeTexts(reg, k, s) && CompileFrom(reg[..k], s, seen).Some? && Next(s).None?
    ensures Barred(CompileFrom(reg[..k], s, seen).value, OwnBars(s), FormatBars(reg, k, s))
  {
    hide Whole, AltOf, Bars;
  }

  lemma BarsStep(reg: Registry, k: nat, s: string)
    requires k <= |reg| && WholeTexts(reg, k, s) && Next(s).Some?
    ensures var p := Next(s).value;
      && Whole(p.text) && WholeFormat(reg, k, p.format) && WholeTexts(reg, k, Rest(s))
      && OwnBars(s) == Bars(AltOf(p.text)) + OwnBars(Rest(s))
      && FormatBars(reg, k, s) == InsideBars(reg, k, p.format) + FormatBars(reg, k, Rest(s))
  {
    hide Whole, AltOf, Bars, WholeFormat, InsideBars, Next, Rest;
  }

  lemma {:induction false} InsideBarred(reg: Registry, k: nat, format: string)
    requires Built(reg) && k <= |reg| && WholeFormat(reg, k, format) && BodyOf(reg[..k], format).Some?
    ensures BodyBars(reg, format) <= InsideBars(reg, k, format)
    ensures Barred(BodyOf(reg[..k], format).value, BodyBars(reg, format), InsideBars(reg, k, format) - BodyBars(reg,
      format))
    decreases k, 0
  {
    hide Built, CompileFrom, Compile, WholeTexts, OwnBars, FormatBars, Barred, Whole, AltOf, Bars;
    if format == "" {
      SimpleBarred();
    } else {
      FormatBarred(reg, k, format);
      var m := Find(reg, format).value;
      BarsCounted(reg, m, reg[m].body.template, {});
    }
  }

  lemma FormatBarred(reg: Registry, k: nat, format: string)
    requires Built(reg) && k <= |reg| && WholeFormat(reg, k, format) && BodyOf(reg[..k], format).Some? && format != ""
    ensures Find(reg, format).Some? && Find(reg, format).value < k
    ensures var m := Find(reg, format).value; var s := reg[m].body.template;
      && WholeTexts(reg, m, s) && CompileFrom(reg[..m], s, {}) == Some(reg[m].body)
      && BodyOf(reg[..k], format) == Some(reg[m].body) && BodyBars(reg, format) == OwnBars(s)
      && InsideBars(reg, k, format) == OwnBars(s) + FormatBars(reg, m, s)
  {
    hide CompileFrom, WholeTexts, OwnBars, FormatBars;
    BodyRank(reg, k, format);
  }

  lemma SimpleBarred()
    ensures Barred(SIMPLE_FORMAT, 0, 0)
  {
    SimplePattern();
    ClosedIsWhole("[^/]+");
  }

  lemma ClosedText(t: string)
    ensures Closed(t) <==> Whole(t) && TextBars(t) == 0
  {
    if Whole(t) {
      ClosedIsWithoutBars(t);
    }
    if Closed(t) {
      ClosedIsWhole(t);
    }
  }

  /** Texts are closed exactly when they are patterns on their own and have no alternatives. */
  lemma {:induction false} ClosedTextsExactly(reg: Registry, k: nat, s: string)
    requires k <= |reg|
    ensures ClosedTexts(reg, k, s) <==> WholeTexts(reg, k, s) && OwnBars(s) == 0 && FormatBars(reg, k, s) == 0
    decreases k, |s| + 1
  {
    hide Closed, Whole, TextBars;
    match Next(s) {
      case None => ClosedText(s);
      case Some(p) =>
        ClosedText(p.text);
        ClosedFormatExactly(reg, k, p.format);
        ClosedTextsExactly(reg, k, Rest(s));
    }
  }

  lemma {:induction false} ClosedFormatExactly(reg: Registry, k: nat, format: string)
    requires k <= |reg|
    ensures ClosedFormat(reg, k, format) <==> WholeFormat(reg, k, format) && InsideBars(reg, k, format) == 0
    decreases k, 0
  {
    hide ClosedTexts, WholeTexts, OwnBars, FormatBars;
    if format != "" && Find(reg, format).Some? && Find(reg, format).value < k {
      var m := Find(reg, format).value;
      ClosedTextsExactly(reg, m, reg[m].body.template);
    }
  }

  /** A body that stands alone, as the whole of both patterns, accepts the same with the parentheses and without. */
  lemma StandingAloneAcceptsTheSame(e: Engine, b: string, uri: string)
    requires Whole(b)
    ensures var g := "(" + b + ")"; Whole(g) && (Accepts(e, AltOf(b), uri) <==> Accepts(e, AltOf(g), uri))
  {
    GroupParse(b);
    var r := AltOf(b);
    hide Whole, AltOf;
    if Accepts(e, r, uri) {
      assert uri[..|uri|] == uri && uri[|uri|..] == "";
      AcceptsCat(e, Capture(r), Empty, uri, |uri|);
    }
    if Accepts(e, Cat(Capture(r), Empty), uri) {
      var i := SplitCat(e, Capture(r), Empty, uri);
      assert uri[..i] == uri;
    }
  }

  /**
   Taking the capturing groups out of the extract pattern gives the match pattern if and
   only if no format that the template reaches has an alternative outside of parentheses.
   The template itself may have alternatives.
   */
  lemma PatternsAgreeExactly(reg: Registry, c: Compiled)
    requires Built(reg) && Compile(reg, c.template) == Some(c) && WholeTexts(reg, |reg|, c.template)
    ensures Agree(c) <==> FormatBars(reg, |reg|, c.template) == 0
  {
    assert reg[..|reg|] == reg;
    hide Built, CompileFrom, WholeTexts, OwnBars, FormatBars, Whole, AltOf, Bars, Erase;
    BarsCounted(reg, |reg|, c.template, {});
    if Agree(c) {
      AgreeingBars(c);
    }
  }

  lemma AgreeingBars(c: Compiled)
    requires Agree(c)
    ensures Bars(AltOf(c.matchPattern)) == Bars(AltOf(c.extractPattern))
  {
    AltIsAlternatives(c.matchPattern);
    AltIsAlternatives(c.extractPattern);
    EraseAlternatives(AltOf(c.matchPattern));
    EraseAlternatives(AltOf(c.extractPattern));
  }

  /** Patterns that agree accept the same URIs, whatever the engine. */
  lemma AgreeingPatternsAcceptTheSame(e: Engine, c: Compiled, uri: string)
    requires Agree(c)
    ensures Accepts(e, AltOf(c.matchPattern), uri) <==> Accepts(e, AltOf(c.extractPattern), uri)
  {
    var m, x := AltOf(c.matchPattern), AltOf(c.extractPattern);
    hide Erase, AltOf, Whole, Accepts;
    EraseKeepsLanguage(e, m);
    EraseKeepsLanguage(e, x);
  }
}
