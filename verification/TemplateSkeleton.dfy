/**
 Parameters anywhere in a template's own text, in groups and in repeated or optional
 ones: the template is parsed with a placeholder for each parameter. If every placeholder
 is a term of its own, the compiled patterns are known from that parse.
 */
module TemplateSkeleton {
  import opened Wrappers
  import opened RegexSyntax
  import opened RegexMatch
  import opened RegexGroups
  import opened RegexFill
  import opened TemplateLexer
  import opened TemplateCompiler
  import opened TemplateMeaning
  import opened TemplateExtract
  import opened TemplateAgreement

  /** The template with a placeholder for each parameter. */
  function Skeleton(s: string, h: char): string
    decreases |s|
  {
    match Next(s)
    case None => s
    case Some(p) => p.text + ([h] + Skeleton(Rest(s), h))
  }

  function Params(s: string): nat
    decreases |s|
  {
    match Next(s) case None => 0 case Some(_) => 1 + Params(Rest(s))
  }

  const NOTHING := Compiled("", "", "", [], [])

  /** The format of the parameter with n parameters behind it. */
  function FormatAt(reg: Registry, s: string, n: nat): Compiled
    decreases |s|
  {
    match Next(s)
    case None => NOTHING
    case Some(p) =>
      if n == Params(Rest(s)) then
        match BodyOf(reg, p.format) case None => NOTHING case Some(b) => b
      else FormatAt(reg, Rest(s), n)
  }

  function MatchFill(reg: Registry, s: string): nat -> string {
    (n: nat) => FormatAt(reg, s, n).matchPattern
  }

  function ExtractFill(reg: Registry, s: string): nat -> string {
    (n: nat) => "(" + FormatAt(reg, s, n).extractPattern + ")"
  }

  lemma {:induction false} SkeletonHoles(s: string, h: char)
    requires h !in s
    ensures Holes(Skeleton(s, h), h) == Params(s)
    decreases |s|
  {
    if Next(s).None? {
      HolesPrefix(s, "", h);
      assert s + "" == s;
    } else {
      NextParts(s);
      var p := Next(s).value;
      SkeletonHoles(Rest(s), h);
      HolesPrefix(p.text, [h] + Skeleton(Rest(s), h), h);
      assert ([h] + Skeleton(Rest(s), h))[1..] == Skeleton(Rest(s), h);
    }
  }

  lemma {:induction false} HolesPrefix(t: string, u: string, h: char)
    requires h !in t
    ensures Holes(t + u, h) == Holes(u, h)
  {
    if t == "" {
      assert t + u == u;
    } else {
      assert t[0] in t && (t + u)[1..] == t[1..] + u;
      HolesPrefix(t[1..], u, h);
    }
  }

  /** Text and rest of a template consist of its characters. */
  lemma NextParts(s: string)
    requires Next(s).Some?
    ensures forall c :: c in Next(s).value.text || c in Rest(s) ==> c in s
  {
    var p := Next(s).value;
    OuterParts(p.text, Token(p), Rest(s));
    hide Next, Rest, Token;
  }

  lemma OuterParts(a: string, b: string, c: string)
    ensures a + b + c == a + (b + c) && forall x :: x in a || x in c ==> x in a + b + c
  {}

  lemma {:induction false} FillAgrees(s: string, h: char, f: nat -> string, f': nat -> string)
    requires forall n: nat :: n < Holes(s, h) ==> f(n) == f'(n)
    ensures Fill(s, h, f) == Fill(s, h, f')
  {
    if s != "" {
      FillAgrees(s[1..], h, f, f');
    }
  }

  lemma {:induction false} FillText(t: string, u: string, h: char, f: nat -> string)
    requires h !in t
    ensures Fill(t + u, h, f) == t + Fill(u, h, f)
  {
    if t == "" {
      assert t + u == u;
    } else {
      assert t[0] in t && (t + u)[1..] == t[1..] + u && (t + u)[0] == t[0];
      FillText(t[1..], u, h, f);
      assert [t[0]] + (t[1..] + Fill(u, h, f)) == t + Fill(u, h, f);
    }
  }

  lemma {:induction false} NothingToFill(s: string, h: char, f: nat -> string)
    requires h !in s
    ensures Fill(s, h, f) == s
  {
    FillText(s, "", h, f);
    assert s + "" == s;
  }

  /** One parameter of the skeleton, filled. */
  lemma FillStep(text: string, rest: string, h: char, f: nat -> string, f': nat -> string)
    requires h !in text && forall n: nat :: n < Holes(rest, h) ==> f(n) == f'(n)
    ensures Fill(text + ([h] + rest), h, f) == text + (f(Holes(rest, h)) + Fill(rest, h, f'))
  {
    FillText(text, [h] + rest, h, f);
    assert ([h] + rest)[1..] == rest && ([h] + rest)[0] == h;
    FillAgrees(rest, h, f, f');
  }

  /** Both patterns of a template are its skeleton, with the patterns of the formats filled in. */
  lemma {:induction false} PatternsAreFilled(reg: Registry, s: string, seen: set<string>, h: char)
    requires h !in s && CompileFrom(reg, s, seen).Some?
    ensures var c := CompileFrom(reg, s, seen).value;
      && c.matchPattern == Fill(Skeleton(s, h), h, MatchFill(reg, s))
      && c.extractPattern == Fill(Skeleton(s, h), h, ExtractFill(reg, s))
    decreases |s|
  {
    if Next(s).None? {
      NothingToFill(s, h, MatchFill(reg, s));
      NothingToFill(s, h, ExtractFill(reg, s));
    } else {
      NextParts(s);
      CompiledStep(reg, s, seen);
      var p := Next(s).value;
      PatternsAreFilled(reg, Rest(s), seen + {p.name}, h);
      SkeletonHoles(Rest(s), h);
      hide CompileFrom, Next, Rest, BodyOf, Fill;
      FillStep(p.text, Skeleton(Rest(s), h), h, MatchFill(reg, s), MatchFill(reg, Rest(s)));
      FillStep(p.text, Skeleton(Rest(s), h), h, ExtractFill(reg, s), ExtractFill(reg, Rest(s)));
    }
  }

  // ---------- what is asked of the texts ----------

  /**
   The template's own texts are one pattern together, in which every parameter is a term
   without a quantifier; each format that it reaches is a sequence of the same kind. The
   placeholder may be any character that no text holds.
   */
  predicate PlacedTexts(reg: Registry, k: nat, s: string, h: char)
    requires k <= |reg|
    decreases k, |s| + 2
  {
    && Placeholder(h) && h !in s
    && Whole(Skeleton(s, h)) && Placed(AltOf(Skeleton(s, h)), h) && PlacedFormats(reg, k, s, h)
  }

  predicate PlacedFormats(reg: Registry, k: nat, s: string, h: char)
    requires k <= |reg|
    decreases k, |s| + 1
  {
    match Next(s)
    case None => true
    case Some(p) => PlacedFormat(reg, k, p.format, h) && PlacedFormats(reg, k, Rest(s), h)
  }

  predicate PlacedFormat(reg: Registry, k: nat, format: string, h: char)
    requires k <= |reg|
    decreases k, 0
  {
    format == "" ||
    match Find(reg, format)
    case None => true
    case Some(m) => m < k ==>
      Closed(Skeleton(reg[m].body.template, h)) && PlacedTexts(reg, m, reg[m].body.template, h)
  }

  function WholeCount(t: string): nat {
    if Whole(t) then Count(AltOf(t)) else 0
  }

  /** The groups that the texts bring in themselves, those of the formats included. */
  function SkeletonGroups(reg: Registry, k: nat, s: string, h: char): nat
    requires k <= |reg|
    decreases k, |s| + 2
  {
    WholeCount(Skeleton(s, h)) + FormatsGroups(reg, k, s, h)
  }

  function FormatsGroups(reg: Registry, k: nat, s: string, h: char): nat
    requires k <= |reg|
    decreases k, |s| + 1
  {
    match Next(s)
    case None => 0
    case Some(p) => InsideGroups(reg, k, p.format, h) + FormatsGroups(reg, k, Rest(s), h)
  }

  function InsideGroups(reg: Registry, k: nat, format: string, h: char): nat
    requires k <= |reg|
    decreases k, 0
  {
    if format == "" then 0
    else
      match Find(reg, format)
      case None => 0
      case Some(m) => if m < k then SkeletonGroups(reg, m, reg[m].body.template, h) else 0
  }

  /** A format whose patterns can be filled in. */
  ghost predicate Fit(b: Compiled) {
    Closed(b.matchPattern) && Closed(b.extractPattern) && Agree(b)
  }

  /** What the compiler makes of a template whose texts are placed. */
  ghost predicate AsPlaced(c: Compiled, skeleton: string, groups: nat) {
    && Whole(skeleton) && Agree(c)
    && Bars(AltOf(c.matchPattern)) == Bars(AltOf(skeleton)) == Bars(AltOf(c.extractPattern))
    && Count(AltOf(c.extractPattern)) == groups
  }

  lemma NothingFits()
    ensures Fit(NOTHING)
  {
  }

  lemma SimpleFits()
    ensures Fit(SIMPLE_FORMAT) && Count(AltOf(SIMPLE_FORMAT.extractPattern)) == 0
  {
    SimplePattern();
    ClosedIsWhole("[^/]+");
  }

  lemma ClosedSkeletonFits(c: Compiled, skeleton: string, groups: nat)
    requires AsPlaced(c, skeleton, groups) && Closed(skeleton)
    ensures Fit(c)
  {
    ClosedIsWithoutBars(skeleton);
    ClosedIsWithoutBars(c.matchPattern);
    ClosedIsWithoutBars(c.extractPattern);
  }

  /** In parentheses a fitting format is one group that differs from the format in capturing alone. */
  lemma FitGroup(b: Compiled)
    requires Fit(b)
    ensures var g := "(" + b.extractPattern + ")";
      && Closed(g) && Erase(ReOf(g)) == Erase(ReOf(b.matchPattern))
      && Count(ReOf(g)) == 1 + Count(AltOf(b.extractPattern))
  {
    var g := "(" + b.extractPattern + ")";
    ClosedIsWhole(b.matchPattern);
    ClosedIsWhole(b.extractPattern);
    GroupParse(b.extractPattern);
    GroupFacts(b.extractPattern);
    ClosedIsWithoutBars(g);
  }

  ghost predicate AllFit(reg: Registry, s: string) {
    forall n: nat :: Fit(FormatAt(reg, s, n))
  }

  lemma FillsMatch(reg: Registry, s: string, h: char)
    requires Placeholder(h) && AllFit(reg, s)
    ensures Matched(Fills(h, MatchFill(reg, s), ExtractFill(reg, s)))
  {
    hide Fit, FormatAt, Placeholder, Erase, Closed, ReOf;
    forall n: nat
      ensures Closed(MatchFill(reg, s)(n)) && Closed(ExtractFill(reg, s)(n))
      ensures Erase(ReOf(MatchFill(reg, s)(n))) == Erase(ReOf(ExtractFill(reg, s)(n)))
    {
      assert Fit(FormatAt(reg, s, n));
      FitFacts(FormatAt(reg, s, n));
      FitGroup(FormatAt(reg, s, n));
    }
  }

  lemma FitFacts(b: Compiled)
    requires Fit(b)
    ensures Closed(b.matchPattern)
  {
  }

  /** A format that is placed, as the compiler made it. */
  lemma {:induction false} FormatIsFit(reg: Registry, k: nat, format: string, h: char)
    requires Built(reg) && k <= |reg| && PlacedFormat(reg, k, format, h) && BodyOf(reg[..k], format).Some?
    requires Resolves(reg, k, format)
    ensures var b := BodyOf(reg[..k], format).value;
      Fit(b) && Count(AltOf(b.extractPattern)) == GroupsInside(reg, k, format) + InsideGroups(reg, k, format, h)
    decreases k, 0
  {
    hide Built, CompileFrom, Compile, PlacedTexts, AsPlaced, Fit, Closed, Whole, AltOf, Count, Skeleton, SkeletonGroups,
      Groups;
    if format == "" {
      SimpleFits();
    } else {
      FormatFacts(reg, k, format, h);
      var m := Find(reg, format).value;
      var s := reg[m].body.template;
      PlacedIs(reg, m, s, {}, h);
      var n := Groups(reg, m, reg[m].body.formats) + SkeletonGroups(reg, m, s, h);
      ClosedSkeletonFits(reg[m].body, Skeleton(s, h), n);
      PlacedCount(reg[m].body, Skeleton(s, h), Groups(reg, m, reg[m].body.formats) + SkeletonGroups(reg, m, s, h));
    }
  }

  lemma PlacedCount(c: Compiled, skeleton: string, groups: nat)
    requires AsPlaced(c, skeleton, groups)
    ensures Whole(c.extractPattern) && Count(AltOf(c.extractPattern)) == groups && Agree(c)
  {
  }

  lemma FormatFacts(reg: Registry, k: nat, format: string, h: char)
    requires Built(reg) && k <= |reg| && PlacedFormat(reg, k, format, h)
    requires BodyOf(reg[..k], format).Some? && format != ""
    requires Resolves(reg, k, format)
    ensures Find(reg, format).Some? && Find(reg, format).value < k
    ensures var m := Find(reg, format).value; var s := reg[m].body.template;
      && Closed(Skeleton(s, h)) && PlacedTexts(reg, m, s, h)
      && CompileFrom(reg[..m], s, {}) == Some(reg[m].body) && BodyOf(reg[..k], format) == Some(reg[m].body)
      && Below(reg, m, reg[m].body.formats)
      && GroupsInside(reg, k, format) == Groups(reg, m, reg[m].body.formats)
      && InsideGroups(reg, k, format, h) == SkeletonGroups(reg, m, s, h)
  {
    hide CompileFrom, PlacedTexts, Skeleton, SkeletonGroups, Groups, Closed;
    BodyRank(reg, k, format);
    RanksDecrease(reg, Find(reg, format).value);
  }

  lemma PlacedStep(reg: Registry, k: nat, s: string, h: char)
    requires k <= |reg| && PlacedFormats(reg, k, s, h) && Next(s).Some?
    ensures PlacedFormat(reg, k, Next(s).value.format, h) && PlacedFormats(reg, k, Rest(s), h)
    ensures FormatsGroups(reg, k, s, h) ==
      InsideGroups(reg, k, Next(s).value.format, h) + FormatsGroups(reg, k, Rest(s), h)
  {
    hide PlacedFormat, InsideGroups, Next, Rest;
  }

  /** All formats of a template's parameters fit. */
  lemma {:induction false} FormatsFit(reg: Registry, k: nat, s: string, seen: set<string>, h: char)
    requires Built(reg) && k <= |reg| && PlacedFormats(reg, k, s, h) && CompileFrom(reg[..k], s, seen).Some?
    ensures AllFit(reg[..k], s)
    decreases k, |s| + 1
  {
    hide Built, CompileFrom, Next, Rest, BodyOf, PlacedFormats, PlacedFormat, AllFit, Fit, Below, Resolves, FormatAt,
      GroupsInside, InsideGroups, Count, AltOf;
    if Next(s).None? {
      NoneFits(reg[..k], s);
    } else {
      CompiledStep(reg[..k], s, seen);
      FormatsBelow(reg, k, s, seen);
      CompiledLists(reg[..k], s, seen);
      PlacedStep(reg, k, s, h);
      var p, c := Next(s).value, CompileFrom(reg[..k], s, seen).value;
      GroupsStep(reg, k, c.formats);
      FormatsFit(reg, k, Rest(s), seen + {p.name}, h);
      FormatIsFit(reg, k, p.format, h);
      OneMoreFits(reg[..k], s);
    }
  }

  lemma NoneFits(reg: Registry, s: string)
    requires Next(s).None?
    ensures AllFit(reg, s)
  {
    NothingFits();
    hide Fit;
  }

  lemma OneMoreFits(reg: Registry, s: string)
    requires Next(s).Some? && AllFit(reg, Rest(s)) && BodyOf(reg, Next(s).value.format).Some?
    requires Fit(BodyOf(reg, Next(s).value.format).value)
    ensures AllFit(reg, s)
  {
    hide Fit, Next, Rest, BodyOf;
    forall n: nat
      ensures Fit(FormatAt(reg, s, n))
    {
      assert Fit(FormatAt(reg, Rest(s), n));
    }
  }

  /** The groups that are filled in: one for each parameter, and those inside its format. */
  lemma {:induction false} FilledCount(reg: Registry, k: nat, s: string, seen: set<string>, h: char)
    requires Built(reg) && k <= |reg| && h !in s && PlacedFormats(reg, k, s, h)
    requires CompileFrom(reg[..k], s, seen).Some? && Closing(ExtractFill(reg[..k], s))
    ensures var c := CompileFrom(reg[..k], s, seen).value;
      && Below(reg, k, c.formats)
      && FillCount(Skeleton(s, h), h, ExtractFill(reg[..k], s)) ==
           Groups(reg, k, c.formats) + FormatsGroups(reg, k, s, h)
    decreases k, |s| + 1
  {
    hide Built, CompileFrom, Next, Rest, BodyOf, PlacedFormats, PlacedFormat, Fit, Below, Resolves, FormatAt, Groups,
      GroupsInside, InsideGroups, FormatsGroups, Count, AltOf, FillCount, Skeleton, Closing, Closed, ReOf, ExtractFill;
    FormatsBelow(reg, k, s, seen);
    if Next(s).None? {
      NoCount(reg, k, s, seen, h);
    } else {
      CompiledStep(reg[..k], s, seen);
      CompiledLists(reg[..k], s, seen);
      PlacedStep(reg, k, s, h);
      NextParts(s);
      var p, c := Next(s).value, CompileFrom(reg[..k], s, seen).value;
      GroupsStep(reg, k, c.formats);
      FormatIsFit(reg, k, p.format, h);
      FitGroup(BodyOf(reg[..k], p.format).value);
      RestCloses(reg[..k], s);
      FilledCount(reg, k, Rest(s), seen + {p.name}, h);
      CountStep(reg[..k], s, h);
    }
  }

  lemma NoCount(reg: Registry, k: nat, s: string, seen: set<string>, h: char)
    requires Built(reg) && k <= |reg| && h !in s && Next(s).None? && CompileFrom(reg[..k], s, seen).Some?
    requires Closing(ExtractFill(reg[..k], s)) && Below(reg, k, CompileFrom(reg[..k], s, seen).value.formats)
    ensures FillCount(Skeleton(s, h), h, ExtractFill(reg[..k], s)) ==
      Groups(reg, k, CompileFrom(reg[..k], s, seen).value.formats) + FormatsGroups(reg, k, s, h)
  {
    hide Built, Below, Closing, ExtractFill;
    assert s[..|s|] == s && s[|s|..] == "";
    FillPrefix(s, |s|, h, ExtractFill(reg[..k], s));
  }

  /** The parameters of the rest have the same formats in the whole template. */
  lemma {:induction false} SameBehind(reg: Registry, s: string, n: nat)
    requires Next(s).Some? && n < Params(Rest(s))
    ensures FormatAt(reg, s, n) == FormatAt(reg, Rest(s), n)
  {
  }

  lemma {:induction false} FarBehind(reg: Registry, s: string, n: nat)
    requires n >= Params(s)
    ensures FormatAt(reg, s, n) == NOTHING
    decreases |s|
  {
    if Next(s).Some? {
      FarBehind(reg, Rest(s), n);
    }
  }

  lemma RestCloses(reg: Registry, s: string)
    requires Next(s).Some? && Closing(ExtractFill(reg, s))
    ensures Closing(ExtractFill(reg, Rest(s)))
  {
    NothingFits();
    FitGroup(NOTHING);
    forall n: nat
      ensures Closed(ExtractFill(reg, Rest(s))(n))
    {
      if n < Params(Rest(s)) {
        SameBehind(reg, s, n);
        assert Closed(ExtractFill(reg, s)(n));
      } else {
        FarBehind(reg, Rest(s), n);
      }
    }
  }

  lemma {:induction false} FillCountAgrees(s: string, h: char, f: nat -> string, f': nat -> string)
    requires Closing(f) && Closing(f') && forall n: nat :: n < Holes(s, h) ==> f(n) == f'(n)
    ensures FillCount(s, h, f) == FillCount(s, h, f')
  {
    if s != "" {
      FillCountAgrees(s[1..], h, f, f');
    }
  }

  lemma CountStep(reg: Registry, s: string, h: char)
    requires Next(s).Some? && h !in Next(s).value.text && h !in Rest(s) && BodyOf(reg, Next(s).value.format).Some?
    requires Closing(ExtractFill(reg, s)) && Closing(ExtractFill(reg, Rest(s)))
    requires Closed("(" + BodyOf(reg, Next(s).value.format).value.extractPattern + ")")
    ensures FillCount(Skeleton(s, h), h, ExtractFill(reg, s)) ==
      Count(ReOf("(" + BodyOf(reg, Next(s).value.format).value.extractPattern + ")"))
      + FillCount(Skeleton(Rest(s), h), h, ExtractFill(reg, Rest(s)))
  {
    var p, rest := Next(s).value, Skeleton(Rest(s), h);
    SkeletonHoles(Rest(s), h);
    hide Next, Rest, BodyOf, Closing, Closed, ReOf, Count;
    SkeletonParts(p.text, rest, h, ExtractFill(reg, s));
    FillCountAgrees(rest, h, ExtractFill(reg, s), ExtractFill(reg, Rest(s)));
  }

  lemma SkeletonParts(text: string, rest: string, h: char, f: nat -> string)
    requires h !in text && Closing(f)
    ensures FillCount(text + ([h] + rest), h, f) == Count(ReOf(f(Holes(rest, h)))) + FillCount(rest, h, f)
  {
    hide Closing, Closed, ReOf, Count;
    var t := text + ([h] + rest);
    assert t[..|text|] == text && t[|text|..] == [h] + rest;
    FillPrefix(t, |text|, h, f);
    assert ([h] + rest)[1..] == rest;
  }

  /** The patterns of a template whose texts are placed, and the groups in them. */
  lemma {:induction false} PlacedIs(reg: Registry, k: nat, s: string, seen: set<string>, h: char)
    requires Built(reg) && k <= |reg| && PlacedTexts(reg, k, s, h) && CompileFrom(reg[..k], s, seen).Some?
    ensures var c := CompileFrom(reg[..k], s, seen).value;
      && Below(reg, k, c.formats)
      && AsPlaced(c, Skeleton(s, h), Groups(reg, k, c.formats) + SkeletonGroups(reg, k, s, h))
    decreases k, |s| + 2
  {
    hide Built, CompileFrom, PlacedFormats, AllFit, Below, FormatAt, Groups, FormatsGroups, Count, AltOf, Whole,
      FillCount, Fill, Skeleton, ExtractFill, MatchFill, AsPlaced, Twins, Matched, Placed, Bars, Erase;
    FormatsBelow(reg, k, s, seen);
    FormatsFit(reg, k, s, seen, h);
    FillsMatch(reg[..k], s, h);
    var x := Fills(h, MatchFill(reg[..k], s), ExtractFill(reg[..k], s));
    MatchedCloses(x);
    FilledCount(reg, k, s, seen, h);
    PatternsAreFilled(reg[..k], s, seen, h);
    FillWhole(x, Skeleton(s, h), CompileFrom(reg[..k], s, seen).value);
  }

  lemma MatchedCloses(x: Fills)
    requires Matched(x)
    ensures Closing(x.f) && Closing(x.g)
  {
  }

  /** A whole pattern with placeholders, filled in two ways. */
  lemma FillWhole(x: Fills, skeleton: string, c: Compiled)
    requires Matched(x) && Whole(skeleton) && Placed(AltOf(skeleton), x.h)
    requires c.matchPattern == Fill(skeleton, x.h, x.f) && c.extractPattern == Fill(skeleton, x.h, x.g)
    ensures AsPlaced(c, skeleton, WholeCount(skeleton) + FillCount(skeleton, x.h, x.g))
  {
    hide ParseAlt, Matched, Placed, Bars, Erase, Count;
    AltFill(x, skeleton);
  }

  // ---------- the theorems ----------

  lemma CompiledIsPlaced(reg: Registry, c: Compiled, h: char)
    requires Built(reg) && Compile(reg, c.template) == Some(c) && PlacedTexts(reg, |reg|, c.template, h)
    ensures Below(reg, |reg|, c.formats)
    ensures AsPlaced(c, Skeleton(c.template, h),
      Groups(reg, |reg|, c.formats) + SkeletonGroups(reg, |reg|, c.template, h))
  {
    hide *;
    CompiledReaches(reg, c);
    PlacedIs(reg, |reg|, c.template, {}, h);
  }

  /**
   With parameters anywhere in the template's own text, in groups, alternatives and
   repetitions, both patterns are the same expression apart from capturing.
   */
  lemma PlacedPatternsAgree(reg: Registry, c: Compiled, h: char)
    requires Built(reg) && Compile(reg, c.template) == Some(c) && PlacedTexts(reg, |reg|, c.template, h)
    ensures Agree(c)
  {
    hide Built, Compile, PlacedTexts, Below, Groups, SkeletonGroups, Skeleton, Agree;
    CompiledIsPlaced(reg, c, h);
  }

  /** Both patterns of such a template accept the same URIs. */
  lemma PlacedPatternsAcceptTheSame(e: Engine, reg: Registry, c: Compiled, h: char, uri: string)
    requires Built(reg) && Compile(reg, c.template) == Some(c) && PlacedTexts(reg, |reg|, c.template, h)
    ensures Whole(c.matchPattern) && Whole(c.extractPattern)
    ensures Accepts(e, AltOf(c.matchPattern), uri) <==> Accepts(e, AltOf(c.extractPattern), uri)
  {
    hide Built, Compile, PlacedTexts, Accepts, AltOf, Whole, Erase;
    PlacedPatternsAgree(reg, c, h);
    AgreeingPatternsAcceptTheSame(e, c, uri);
  }

  /**
   Reading one result for each group of the extract pattern, those of parameters in
   optional parts included, ends behind the last result if and only if the texts have no
   groups.
   */
  lemma PlacedGroupsAreReadExactly(reg: Registry, c: Compiled, h: char, results: seq<string>)
    requires Built(reg) && Compile(reg, c.template) == Some(c) && PlacedTexts(reg, |reg|, c.template, h)
    requires Whole(c.extractPattern) && |results| == 1 + Count(AltOf(c.extractPattern))
    ensures var r := Extract(reg, c, Some(results)).value.1;
      r.Some? && (r.value.1 == |results| <==> SkeletonGroups(reg, |reg|, c.template, h) == 0)
  {
    hide Compile, CompileFrom, Shaped, Groups, Built, Below, Flatten, Distinct, Reaches, Extract, Values, ValuesFrom,
      ReadsAll, SkeletonGroups, PlacedTexts, Whole, AltOf, Count, AsPlaced, Skeleton;
    CompiledIsPlaced(reg, c, h);
    PlacedCount(c, Skeleton(c.template, h), Groups(reg, |reg|, c.formats) + SkeletonGroups(reg, |reg|, c.template, h));
    CompiledReaches(reg, c);
    EveryGroupIsRead(reg, |reg|, results, 1, c.params, c.formats, {});
    ExtractIs(reg, c, results);
    Reading(results, 1, ValuesFrom(reg, |reg|, results, 1, c.params, c.formats, {}), Groups(reg, |reg|, c.formats));
  }
}
