/**
 Compiling URI templates into patterns, and the registry of named formats that
 templates refer to. `None` stands for a failed NNATIVE_ASSERT.
 */
module TemplateCompiler {
  import opened Wrappers
  import opened TemplateLexer

  /** A UriTemplate: its text and what parse made of it. */
  datatype Compiled = Compiled(
    template: string,
    matchPattern: string,
    extractPattern: string,
    params: seq<string>,
    formats: seq<string>)

  datatype Format = Format(name: string, body: Compiled)

  /** The registered formats, in the order of their registration. */
  type Registry = seq<Format>

  const SIMPLE_FORMAT := Compiled("[^/]+", "[^/]+", "[^/]+", [], [])

  function Find(reg: Registry, name: string): (i: Option<nat>)
    ensures i.Some? ==> i.value < |reg| && reg[i.value].name == name
    ensures i.None? ==> forall j :: 0 <= j < |reg| ==> reg[j].name != name
  {
    if reg == [] then None
    else if reg[0].name == name then Some(0)
    else match Find(reg[1..], name) case None => None case Some(i) => Some(i + 1)
  }

  /** The format of a parameter; a parameter without one takes anything up to a slash. */
  function BodyOf(reg: Registry, format: string): Option<Compiled> {
    if format == "" then Some(SIMPLE_FORMAT)
    else match Find(reg, format) case None => None case Some(i) => Some(reg[i].body)
  }

  /**
   The test for capturing groups: an opening parenthesis, one character that is not a
   question mark, at least one more that is not a closing parenthesis, and a closing one.
   */
  predicate Flagged(s: string) {
    exists i :: 0 <= i < |s| && FlaggedAt(s, i)
  }

  predicate FlaggedAt(s: string, i: nat)
    requires i < |s|
  {
    s[i] == '(' && i + 2 < |s| && s[i + 1] != '?' &&
    0 < IndexOf(s[i + 2..], ')') < |s| - i - 2
  }

  /** The rest of a template, once the parameters in `seen` have been compiled. */
  function CompileFrom(reg: Registry, s: string, seen: set<string>): (c: Option<Compiled>)
    ensures c.Some? ==> c.value.template == s && |c.value.params| == |c.value.formats|
    decreases |s|
  {
    match Next(s)
    case None => Some(Compiled(s, s, s, [], []))
    case Some(p) =>
      if p.name in seen then None else
      match BodyOf(reg, p.format)
      case None => None
      case Some(b) =>
        match CompileFrom(reg, Rest(s), seen + {p.name})
        case None => None
        case Some(c) =>
          Some(Compiled(s,
                        p.text + (b.matchPattern + c.matchPattern),
                        p.text + ("(" + b.extractPattern + ")" + c.extractPattern),
                        [p.name] + c.params,
                        [p.format] + c.formats))
  }

  function Compile(reg: Registry, template: string): Option<Compiled> {
    if Flagged(template) then None else CompileFrom(reg, template, {})
  }

  /** The patterns, names and formats of a compiled prefix, put before a compiled rest. */
  function After(done: Compiled, rest: Option<Compiled>): Option<Compiled> {
    match rest
    case None => None
    case Some(c) =>
      Some(Compiled(done.template,
                    done.matchPattern + c.matchPattern,
                    done.extractPattern + c.extractPattern,
                    done.params + c.params,
                    done.formats + c.formats))
  }

  /** One round of the loop moves one parameter from the rest to the compiled prefix. */
  lemma AfterStep(reg: Registry, done: Compiled, s: string, seen: set<string>, p: Param, b: Compiled)
    requires Next(s) == Some(p) && p.name !in seen && BodyOf(reg, p.format) == Some(b)
    ensures var done' := Compiled(done.template,
                                  done.matchPattern + p.text + b.matchPattern,
                                  done.extractPattern + p.text + "(" + b.extractPattern + ")",
                                  done.params + [p.name],
                                  done.formats + [p.format]);
      After(done, CompileFrom(reg, s, seen)) == After(done', CompileFrom(reg, Rest(s), seen + {p.name}))
  {
    hide Next, Rest, BodyOf;
    var rest := CompileFrom(reg, Rest(s), seen + {p.name});
    if rest.Some? {
      Reassociate(done.matchPattern, p.text, b.matchPattern, rest.value.matchPattern);
      ReassociateGroup(done.extractPattern, p.text, b.extractPattern, rest.value.extractPattern);
      ReassociateNames(done.params, p.name, rest.value.params);
      ReassociateNames(done.formats, p.format, rest.value.formats);
    }
  }

  lemma ReassociateNames(a: seq<string>, b: string, c: seq<string>)
    ensures a + ([b] + c) == a + [b] + c
  {
  }

  lemma Reassociate(a: string, b: string, c: string, d: string)
    ensures a + (b + (c + d)) == a + b + c + d
  {
  }

  lemma ReassociateGroup(a: string, b: string, c: string, d: string)
    ensures a + (b + ("(" + c + ")" + d)) == a + b + "(" + c + ")" + d
  {
  }

  method FindCapturingGroup(s: string) returns (flagged: bool)
    ensures flagged == Flagged(s)
  {
    var i := 0;
    while i < |s|
      invariant 0 <= i <= |s|
      invariant forall j :: 0 <= j < i ==> !FlaggedAt(s, j)
    {
      if FlaggedAt(s, i) {
        return true;
      }
      i := i + 1;
    }
    flagged := false;
  }

  /** UriTemplate::parse. */
  method Parse(reg: Registry, template: string) returns (r: Option<Compiled>)
    ensures r == Compile(reg, template)
  {
    var flagged := FindCapturingGroup(template);
    if flagged {
      return None;
    }
    var done := Compiled(template, "", "", [], []);
    var uniqParams: set<string> := {};
    var begin := 0;
    hide Next, Rest, BodyOf, Print, Read, CompileFrom, After, Flagged;
    var found, end, textStr, paramName, formatName := GetNextParameter(template, begin);
    assert template[0..] == template;
    AfterNothing(reg, template);
    while found
      invariant begin <= end <= |template|
      invariant found == Next(template[begin..]).Some?
      invariant found ==> Read(template[begin..], end - begin, textStr, paramName, formatName)
      invariant done.template == template
      invariant After(done, CompileFrom(reg, template[begin..], uniqParams)) == CompileFrom(reg, template, {})
      decreases |template| - begin
    {
      var s := template[begin..];
      RestIs(s, end - begin, textStr, paramName, formatName);
      Tail(template, begin, end);
      if paramName in uniqParams {
        Refused(reg, done, s, uniqParams);
        return None;
      }
      var format := BodyOf(reg, formatName);
      if format.None? {
        Refused(reg, done, s, uniqParams);
        return None;
      }
      AfterStep(reg, done, s, uniqParams, Next(s).value, format.value);
      done := Compiled(template,
                       done.matchPattern + textStr + format.value.matchPattern,
                       done.extractPattern + textStr + "(" + format.value.extractPattern + ")",
                       done.params + [paramName],
                       done.formats + [formatName]);
      uniqParams := uniqParams + {paramName};
      begin := end;
      found, end, textStr, paramName, formatName := GetNextParameter(template, begin);
    }
    AfterEnd(reg, done, template[begin..], uniqParams);
    r := Some(done.(matchPattern := done.matchPattern + template[begin..],
                    extractPattern := done.extractPattern + template[begin..]));
  }

  lemma Tail(s: string, i: nat, j: nat)
    requires i <= j <= |s|
    ensures s[i..][j - i..] == s[j..]
  {
  }

  lemma Refused(reg: Registry, done: Compiled, s: string, seen: set<string>)
    requires Next(s).Some? && (Next(s).value.name in seen || BodyOf(reg, Next(s).value.format).None?)
    ensures After(done, CompileFrom(reg, s, seen)) == None
  {
    hide Next, BodyOf;
  }

  lemma AfterEnd(reg: Registry, done: Compiled, s: string, seen: set<string>)
    requires Next(s).None?
    ensures After(done, CompileFrom(reg, s, seen)) ==
      Some(done.(matchPattern := done.matchPattern + s, extractPattern := done.extractPattern + s))
  {
    assert done.params + [] == done.params && done.formats + [] == done.formats;
  }

  lemma AfterNothing(reg: Registry, template: string)
    ensures After(Compiled(template, "", "", [], []), CompileFrom(reg, template, {})) == CompileFrom(reg, template, {})
  {
    var c := CompileFrom(reg, template, {});
    hide CompileFrom;
    if c.Some? {
      assert "" + c.value.matchPattern == c.value.matchPattern && "" + c.value.extractPattern == c.value.extractPattern;
      assert [] + c.value.params == c.value.params && [] + c.value.formats == c.value.formats;
    }
  }

  lemma RestIs(s: string, n: nat, text: string, name: string, format: string)
    requires Read(s, n, text, name, format)
    ensures Rest(s) == s[n..] && 0 < n
    ensures var p := Next(s).value; (p.text, p.name, p.format) == (text, name, format)
  {
    assert s == Print(Next(s).value) + Rest(s);
  }

  // ---------- what compiles ----------

  /** The test in the characters of the text: "(", no "?", at least one that is no ")", and then ")". */
  lemma FlaggedExactly(s: string)
    ensures Flagged(s) <==>
      exists i: nat, j: nat :: GroupLike(s, i, j)
  {
    if Flagged(s) {
      var i :| 0 <= i < |s| && FlaggedAt(s, i);
      var n := IndexOf(s[i + 2..], ')');
      forall k | i + 2 <= k < i + 2 + n
        ensures s[k] != ')'
      {
        assert s[i + 2..][..n][k - i - 2] == s[k];
      }
      assert GroupLike(s, i, i + 2 + n);
    }
    if i: nat, j: nat :| GroupLike(s, i, j) {
      IndexIs(s[i + 2..], ')', j - i - 2);
      assert FlaggedAt(s, i);
    }
  }

  predicate GroupLike(s: string, i: nat, j: nat) {
    i + 3 <= j < |s| && s[i] == '(' && s[i + 1] != '?' && s[j] == ')' && forall k :: i + 2 <= k < j ==> s[k] != ')'
  }

  /** The names differ from each other and from those before, and every format is registered. */
  ghost predicate Compilable(reg: Registry, ps: seq<Param>, seen: set<string>) {
    && (forall i :: 0 <= i < |ps| ==> ps[i].name !in seen)
    && (forall i, j :: 0 <= i < j < |ps| ==> ps[i].name != ps[j].name)
    && forall i :: 0 <= i < |ps| ==> Known(reg, ps[i].format)
  }

  ghost predicate Known(reg: Registry, format: string) {
    format == "" || exists k :: 0 <= k < |reg| && reg[k].name == format
  }

  lemma BodyIsKnown(reg: Registry, format: string)
    ensures BodyOf(reg, format).Some? <==> Known(reg, format)
  {
  }

  lemma CompilableCons(reg: Registry, ps: seq<Param>, seen: set<string>)
    requires ps != []
    ensures Compilable(reg, ps, seen) <==>
      ps[0].name !in seen && Known(reg, ps[0].format) && Compilable(reg, ps[1..], seen + {ps[0].name})
  {
    hide Known;
    assert forall i :: 1 <= i < |ps| ==> ps[i] == ps[1..][i - 1];
    assert forall i :: 0 <= i < |ps| - 1 ==> ps[1..][i] == ps[i + 1];
  }

  lemma {:induction false} CompilesFrom(reg: Registry, s: string, seen: set<string>)
    ensures CompileFrom(reg, s, seen).Some? <==> Compilable(reg, Lex(s).0, seen)
    ensures CompileFrom(reg, s, seen).Some? ==> Lists(CompileFrom(reg, s, seen).value, Lex(s).0)
    decreases |s|
  {
    hide BodyOf, Compilable, Known, Lex, Lists;
    if Next(s).Some? {
      var p := Next(s).value;
      CompilesFrom(reg, Rest(s), seen + {p.name});
      BodyIsKnown(reg, p.format);
      LexCons(s);
      CompilableCons(reg, Lex(s).0, seen);
      hide Next, Rest;
      var c := CompileFrom(reg, Rest(s), seen + {p.name});
      if CompileFrom(reg, s, seen).Some? {
        ListsCons(CompileFrom(reg, s, seen).value, c.value, p, Lex(Rest(s)).0);
      }
    } else {
      NothingToCompile(reg, s, seen);
    }
  }

  lemma NothingToCompile(reg: Registry, s: string, seen: set<string>)
    requires Next(s).None?
    ensures Lex(s).0 == [] && Compilable(reg, [], seen) && Lists(Compiled(s, s, s, [], []), [])
  {
  }

  lemma ListsCons(c: Compiled, rest: Compiled, p: Param, ps: seq<Param>)
    requires Lists(rest, ps) && c.params == [p.name] + rest.params && c.formats == [p.format] + rest.formats
    ensures Lists(c, [p] + ps)
  {
  }

  lemma LexCons(s: string)
    requires Next(s).Some?
    ensures Lex(s).0 == [Next(s).value] + Lex(Rest(s)).0
    ensures Lex(s).0[1..] == Lex(Rest(s)).0
  {
    hide Next, Rest;
  }

  /** The names and formats are those of the parameters, in their order. */
  ghost predicate Lists(c: Compiled, ps: seq<Param>) {
    && |c.params| == |c.formats| == |ps|
    && forall i :: 0 <= i < |ps| ==> c.params[i] == ps[i].name && c.formats[i] == ps[i].format
  }

  /** A template compiles exactly when nothing in it looks like a group, no name comes twice and all formats exist. */
  lemma CompilesExactly(reg: Registry, template: string)
    ensures var ps := Lex(template).0;
      && (Compile(reg, template).Some? <==> !Flagged(template) && Compilable(reg, ps, {}))
      && (Compile(reg, template).Some? ==> Lists(Compile(reg, template).value, ps))
  {
    CompilesFrom(reg, template, {});
    hide Flagged, CompileFrom, Compilable, Lex;
  }

  // ---------- the registry ----------

  /** Every format was compiled against the formats registered before it, and no name occurs twice. */
  ghost predicate Built(reg: Registry) {
    && (forall k :: 0 <= k < |reg| ==> Compile(reg[..k], reg[k].body.template) == Some(reg[k].body))
    && (forall j, k :: 0 <= j < k < |reg| ==> reg[j].name != reg[k].name)
  }

  /** All formats in the list are registered below rank k. */
  ghost predicate Below(reg: Registry, k: nat, formats: seq<string>) {
    forall i :: 0 <= i < |formats| ==> Resolves(reg, k, formats[i])
  }

  ghost predicate Resolves(reg: Registry, k: nat, format: string) {
    format == "" || (Find(reg, format).Some? && Find(reg, format).value < k)
  }

  lemma {:induction false} FindGrows(reg: Registry, reg': Registry, name: string)
    requires reg <= reg' && Find(reg, name).Some?
    ensures Find(reg', name) == Find(reg, name)
  {
    if reg[0].name != name {
      assert reg[1..] <= reg'[1..];
      FindGrows(reg[1..], reg'[1..], name);
    }
  }

  lemma BodyGrows(reg: Registry, reg': Registry, format: string)
    requires reg <= reg' && BodyOf(reg, format).Some?
    ensures BodyOf(reg', format) == BodyOf(reg, format)
  {
    if format != "" {
      FindGrows(reg, reg', format);
    }
  }

  lemma {:induction false} CompileFromGrows(reg: Registry, reg': Registry, s: string, seen: set<string>)
    requires reg <= reg' && CompileFrom(reg, s, seen).Some?
    ensures CompileFrom(reg', s, seen) == CompileFrom(reg, s, seen)
    decreases |s|
  {
    if Next(s).Some? {
      var p := Next(s).value;
      BodyGrows(reg, reg', p.format);
      CompileFromGrows(reg, reg', Rest(s), seen + {p.name});
    }
  }

  /** While the registry only grows, the cached patterns are what parsing again would give. */
  lemma CacheStaysValid(reg: Registry, reg': Registry, template: string)
    requires reg <= reg' && Compile(reg, template).Some?
    ensures Compile(reg', template) == Compile(reg, template)
  {
    CompileFromGrows(reg, reg', template, {});
  }

  /** A compiled template refers only to formats that were registered before it was compiled. */
  lemma {:induction false} FormatsBelow(reg: Registry, k: nat, s: string, seen: set<string>)
    requires k <= |reg| && CompileFrom(reg[..k], s, seen).Some?
    ensures Below(reg, k, CompileFrom(reg[..k], s, seen).value.formats)
    decreases |s|
  {
    if Next(s).Some? {
      var p := Next(s).value;
      FormatsBelow(reg, k, Rest(s), seen + {p.name});
      if p.format != "" {
        FindGrows(reg[..k], reg, p.format);
      }
      assert Resolves(reg, k, p.format);
    }
  }

  /** The formats inside the format of rank k have smaller ranks: there are no cycles. */
  lemma RanksDecrease(reg: Registry, k: nat)
    requires Built(reg) && k < |reg|
    ensures Below(reg, k, reg[k].body.formats) && |reg[k].body.params| == |reg[k].body.formats|
  {
    FormatsBelow(reg, k, reg[k].body.template, {});
  }

  /** The static map of global formats. */
  class UriTemplateFormats {
    var formats: Registry

    constructor ()
      ensures formats == [] && Built(formats)
    {
      formats := [];
    }

    /** AddGlobalFormat. A name that is taken, or a template that does not compile, is refused. */
    method AddGlobalFormat(name: string, template: string) returns (ok: bool)
      requires Built(formats)
      modifies this
      ensures ok == (Find(old(formats), name).None? && Compile(old(formats), template).Some?)
      ensures formats ==
        if ok then old(formats) + [Format(name, Compile(old(formats), template).value)] else old(formats)
      ensures Built(formats)
    {
      if Find(formats, name).Some? {
        return false;
      }
      var body := Parse(formats, template);
      if body.None? {
        return false;
      }
      BuiltAppend(formats, Format(name, body.value));
      formats := formats + [Format(name, body.value)];
      ok := true;
    }
  }

  lemma BuiltAppend(reg: Registry, f: Format)
    requires Built(reg) && Find(reg, f.name).None? && Compile(reg, f.body.template) == Some(f.body)
    ensures Built(reg + [f])
  {
    var reg' := reg + [f];
    forall k | 0 <= k < |reg'|
      ensures Compile(reg'[..k], reg'[k].body.template) == Some(reg'[k].body)
    {
      if k < |reg| {
        assert reg'[..k] == reg[..k];
      } else {
        assert reg'[..k] == reg;
      }
    }
  }
}
