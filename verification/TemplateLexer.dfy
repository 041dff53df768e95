/**
 Finding the parameters of a URI template: `:name` up to the next slash, `{name}` and
 `{name:format}`. The template may mix them with regular expression text, in which
 colons and braces also occur.
 */
module TemplateLexer {
  import opened Wrappers

  /** How a parameter is written. */
  datatype Form = Colon | Brace | BraceColon

  /** The literal text before a parameter, and the parameter. */
  datatype Param = Param(text: string, name: string, format: string, form: Form)

  function Token(p: Param): string {
    match p.form
    case Colon => ":" + p.name
    case Brace => "{" + p.name + "}"
    case BraceColon => "{" + p.name + ":" + p.format + "}"
  }

  function Print(p: Param): string {
    p.text + Token(p)
  }

  // ---------- the expressions that the lexer searches for ----------

  predicate NameStart(c: char) {
    'a' <= c <= 'z' || 'A' <= c <= 'Z' || c == '_'
  }

  predicate Special(c: char) {
    c == '{' || c == ':'
  }

  /** The first position of c in s, |s| if there is none. */
  function IndexOf(s: string, c: char): (i: nat)
    ensures i <= |s| && c !in s[..i] && (i < |s| ==> s[i] == c)
  {
    if s == "" || s[0] == c then 0 else
    var i := 1 + IndexOf(s[1..], c);
    assert s[..i] == [s[0]] + s[1..][..i - 1];
    i
  }

  /** A name, then anything but a slash, at the start of s. */
  function SimpleName(s: string): Option<string> {
    if s == "" || !NameStart(s[0]) then None else Some(s[..IndexOf(s, '/')])
  }

  /** A name, then anything but a closing brace, then a closing brace, at the start of s. */
  function BraceName(s: string): Option<string> {
    if s == "" || !NameStart(s[0]) || IndexOf(s, '}') == |s| then None else Some(s[..IndexOf(s, '}')])
  }

  // ---------- the specification: the leftmost place where a parameter starts ----------

  /**
   A colon starts a parameter at the beginning, after a slash, and straight after
   another colon or brace that did not start one.
   */
  predicate Opens(s: string, i: nat)
    requires i < |s|
  {
    s[i] == ':' && (i == 0 || s[i - 1] == '/' || Special(s[i - 1]))
  }

  predicate Braced(s: string, i: nat)
    requires i < |s|
  {
    s[i] == '{' && BraceName(s[i + 1..]).Some?
  }

  predicate Starts(s: string, i: nat)
    requires i < |s|
  {
    Opens(s, i) || Braced(s, i)
  }

  function FirstStart(s: string, from: nat): (i: nat)
    requires from <= |s|
    ensures from <= i <= |s|
    ensures forall j :: from <= j < i ==> !Starts(s, j)
    ensures i < |s| ==> Starts(s, i)
    decreases |s| - from
  {
    if from == |s| || Starts(s, from) then from else FirstStart(s, from + 1)
  }

  function BraceParam(text: string, content: string): Param {
    var i := IndexOf(content, ':');
    if i == |content| then Param(text, content, "", Brace)
    else Param(text, content[..i], content[i + 1..], BraceColon)
  }

  /** The first parameter of s. A colon that starts a parameter without a name ends the search. */
  function Next(s: string): Option<Param> {
    var i := FirstStart(s, 0);
    if i == |s| then None
    else if s[i] == '{' then Some(BraceParam(s[..i], BraceName(s[i + 1..]).value))
    else
      match SimpleName(s[i + 1..])
      case None => None
      case Some(name) => Some(Param(s[..i], name, "", Colon))
  }

  // ---------- nothing is lost ----------

  lemma BraceParamPrints(text: string, content: string)
    ensures Print(BraceParam(text, content)) == text + "{" + content + "}"
  {
    var i := IndexOf(content, ':');
    if i < |content| {
      assert content == content[..i] + ":" + content[i + 1..];
    }
  }

  lemma SimpleNamePrefix(t: string)
    requires SimpleName(t).Some?
    ensures SimpleName(t).value <= t
  {
  }

  lemma BraceNamePrefix(t: string)
    requires BraceName(t).Some?
    ensures BraceName(t).value + "}" <= t
  {
  }

  lemma FirstStartIs(s: string, i: nat)
    requires i <= |s| && (forall j :: 0 <= j < i ==> !Starts(s, j)) && (i < |s| ==> Starts(s, i))
    ensures FirstStart(s, 0) == i
  {
  }

  lemma Prefix(s: string, i: nat, t: string)
    requires i < |s| && t <= s[i + 1..]
    ensures s[..i] + ([s[i]] + t) <= s
  {
    assert t == s[i + 1..][..|t|] == s[i + 1..i + 1 + |t|];
    assert s[..i] + ([s[i]] + t) == s[..i + 1 + |t|];
  }

  lemma NextColonIs(s: string, i: nat)
    requires i < |s| && FirstStart(s, 0) == i && s[i] == ':' && SimpleName(s[i + 1..]).Some?
    ensures Next(s) == Some(Param(s[..i], SimpleName(s[i + 1..]).value, "", Colon))
  {
    hide FirstStart, SimpleName;
  }

  lemma NextColon(s: string, i: nat)
    requires i < |s| && FirstStart(s, 0) == i && s[i] == ':' && SimpleName(s[i + 1..]).Some?
    ensures var name := SimpleName(s[i + 1..]).value;
      Next(s) == Some(Param(s[..i], name, "", Colon)) && s[..i] + (":" + name) <= s
  {
    hide FirstStart, Next;
    NextColonIs(s, i);
    SimpleNamePrefix(s[i + 1..]);
    hide SimpleName;
    Prefix(s, i, SimpleName(s[i + 1..]).value);
  }

  lemma NextBraceIs(s: string, i: nat)
    requires i < |s| && FirstStart(s, 0) == i && s[i] == '{' && BraceName(s[i + 1..]).Some?
    ensures Next(s) == Some(BraceParam(s[..i], BraceName(s[i + 1..]).value))
  {
    hide FirstStart, BraceName, BraceParam;
  }

  lemma NextBrace(s: string, i: nat)
    requires i < |s| && FirstStart(s, 0) == i && s[i] == '{' && BraceName(s[i + 1..]).Some?
    ensures var content := BraceName(s[i + 1..]).value;
      Next(s) == Some(BraceParam(s[..i], content)) && s[..i] + "{" + content + "}" <= s
  {
    hide FirstStart, BraceParam, Next;
    NextBraceIs(s, i);
    BraceNamePrefix(s[i + 1..]);
    var content := BraceName(s[i + 1..]).value;
    hide BraceName;
    Prefix(s, i, content + "}");
    assert s[..i] + "{" + content + "}" == s[..i] + (['{'] + (content + "}"));
  }

  lemma NextPrints(s: string)
    requires Next(s).Some?
    ensures var p := Next(s).value; Print(p) <= s && |p.text| < |Print(p)|
  {
    var i := FirstStart(s, 0);
    hide FirstStart, SimpleName, BraceName, BraceParam;
    if s[i] == '{' {
      NextBrace(s, i);
      BraceParamPrints(s[..i], BraceName(s[i + 1..]).value);
    } else {
      NextColon(s, i);
    }
  }

  /** What is left of s after its first parameter. */
  function Rest(s: string): (r: string)
    requires Next(s).Some?
    ensures |r| < |s| && s == Print(Next(s).value) + r
  {
    NextPrints(s);
    s[|Print(Next(s).value)|..]
  }

  function Lex(s: string): (seq<Param>, string) {
    match Next(s)
    case None => ([], s)
    case Some(p) => var (ps, end) := Lex(Rest(s)); ([p] + ps, end)
  }

  function PrintAll(ps: seq<Param>): string {
    if ps == [] then "" else Print(ps[0]) + PrintAll(ps[1..])
  }

  /** A name starts with a letter or an underscore; it never holds the character that ends it. */
  predicate WellFormed(p: Param) {
    && p.name != "" && NameStart(p.name[0])
    && match p.form
       case Colon => p.format == "" && '/' !in p.name
       case Brace => p.format == "" && '}' !in p.name && ':' !in p.name
       case BraceColon => '}' !in p.name && '}' !in p.format && ':' !in p.name
  }

  /** The texts, parameters and remainder of a template are the template again, character for character. */
  lemma {:induction false} LexIsLossless(s: string)
    ensures var (ps, end) := Lex(s);
      PrintAll(ps) + end == s && (forall i :: 0 <= i < |ps| ==> WellFormed(ps[i])) && Next(end) == None
    decreases |s|
  {
    if Next(s).Some? {
      LexIsLossless(Rest(s));
      NextIsWellFormed(s);
    }
  }

  lemma NextIsWellFormed(s: string)
    requires Next(s).Some?
    ensures WellFormed(Next(s).value)
  {
    var i := FirstStart(s, 0);
    if s[i] == '{' {
      var content := BraceName(s[i + 1..]).value;
      var c := IndexOf(content, ':');
      assert forall x :: x in content[..c] ==> x in content;
      if c < |content| {
        assert forall x :: x in content[c + 1..] ==> x in content;
      }
    }
  }

  // ---------- what is read ----------

  lemma {:induction false} IndexIs(s: string, c: char, i: nat)
    requires i <= |s| && (forall j :: 0 <= j < i ==> s[j] != c) && (i < |s| ==> s[i] == c)
    ensures IndexOf(s, c) == i
  {
    if i > 0 {
      IndexIs(s[1..], c, i - 1);
    }
  }

  /** A string without c, before one that is empty or starts with c. */
  lemma IndexAfter(name: string, c: char, r: string)
    requires c !in name && (r == "" || r[0] == c)
    ensures IndexOf(name + r, c) == |name| && (name + r)[..|name|] == name
  {
    var s := name + r;
    forall j | 0 <= j < |name|
      ensures s[j] != c
    {
      assert s[j] == name[j];
    }
    IndexIs(s, c, |name|);
  }

  lemma SimpleNameIs(name: string, r: string)
    requires name != "" && NameStart(name[0]) && '/' !in name && (r == "" || r[0] == '/')
    ensures SimpleName(name + r) == Some(name)
  {
    hide IndexOf, NameStart;
    IndexAfter(name, '/', r);
    assert (name + r)[0] == name[0];
  }

  lemma BraceNameIs(content: string, r: string)
    requires content != "" && NameStart(content[0]) && '}' !in content
    ensures BraceName(content + ("}" + r)) == Some(content)
  {
    hide IndexOf, NameStart;
    IndexAfter(content, '}', "}" + r);
    assert (content + ("}" + r))[0] == content[0];
  }

  /** Behind a text without colons and braces comes the first place where a parameter can start. */
  lemma TextBefore(text: string, token: string)
    requires ':' !in text && '{' !in text && token != ""
    ensures var s := text + token;
      && s[..|text|] == text && s[|text|] == token[0] && s[|text| + 1..] == token[1..]
      && (forall j :: 0 <= j < |text| ==> !Starts(s, j))
  {
    var s := text + token;
    forall j | 0 <= j < |text|
      ensures !Starts(s, j)
    {
      assert s[j] == text[j];
    }
  }

  /** A colon at the beginning or after a slash takes the name up to the next slash. */
  lemma ColonParameter(text: string, name: string, r: string)
    requires ':' !in text && '{' !in text && (text == "" || text[|text| - 1] == '/')
    requires name != "" && ('a' <= name[0] <= 'z' || 'A' <= name[0] <= 'Z' || name[0] == '_')
    requires '/' !in name && (r == "" || r[0] == '/')
    ensures Next(text + (":" + (name + r))) == Some(Param(text, name, "", Colon))
  {
    var token := ":" + (name + r);
    var s := text + token;
    TextBefore(text, token);
    assert token[1..] == name + r;
    SimpleNameIs(name, r);
    hide SimpleName, FirstStart, Braced, Next;
    assert text != "" ==> s[|text| - 1] == text[|text| - 1];
    assert Opens(s, |text|);
    FirstStartIs(s, |text|);
    NextColonIs(s, |text|);
  }

  lemma BraceIs(text: string, content: string, r: string)
    requires ':' !in text && '{' !in text
    requires content != "" && NameStart(content[0]) && '}' !in content
    ensures Next(text + ("{" + (content + ("}" + r)))) == Some(BraceParam(text, content))
  {
    var token := "{" + (content + ("}" + r));
    TextBefore(text, token);
    assert token[1..] == content + ("}" + r);
    BraceNameIs(content, r);
    hide BraceName, FirstStart, Opens, Next;
    FirstStartIs(text + token, |text|);
    NextBraceIs(text + token, |text|);
  }

  /** Braces take the name between them, wherever they stand. */
  lemma BraceParameter(text: string, name: string, r: string)
    requires ':' !in text && '{' !in text
    requires name != "" && ('a' <= name[0] <= 'z' || 'A' <= name[0] <= 'Z' || name[0] == '_')
    requires '}' !in name && ':' !in name
    ensures Next(text + ("{" + (name + ("}" + r)))) == Some(Param(text, name, "", Brace))
  {
    BraceIs(text, name, r);
    IndexAfter(name, ':', "");
    assert name + "" == name;
  }

  /** The first colon between the braces ends the name, and what follows it is the format. */
  lemma BraceFormatParameter(text: string, name: string, format: string, r: string)
    requires ':' !in text && '{' !in text
    requires name != "" && ('a' <= name[0] <= 'z' || 'A' <= name[0] <= 'Z' || name[0] == '_')
    requires '}' !in name && ':' !in name && '}' !in format
    ensures Next(text + ("{" + (name + (":" + (format + ("}" + r)))))) == Some(Param(text, name, format, BraceColon))
  {
    var content := name + (":" + format);
    assert content + ("}" + r) == name + (":" + (format + ("}" + r)));
    BraceIs(text, content, r);
    IndexAfter(name, ':', ":" + format);
    assert content[|name| + 1..] == format;
  }

  /** A text without colons and braces holds no parameter. */
  lemma PlainText(text: string)
    requires ':' !in text && '{' !in text
    ensures Next(text) == None
  {
    forall j | 0 <= j < |text|
      ensures !Starts(text, j)
    {
      assert text[j] in text;
    }
    FirstStartIs(text, |text|);
  }

  /** A colon that could start a parameter and has no name behind it ends the search, whatever follows. */
  lemma NamelessColon(text: string, r: string)
    requires ':' !in text && '{' !in text && (text == "" || text[|text| - 1] == '/')
    requires r == "" || !('a' <= r[0] <= 'z' || 'A' <= r[0] <= 'Z' || r[0] == '_')
    ensures Next(text + (":" + r)) == None
  {
    var token := ":" + r;
    var s := text + token;
    TextBefore(text, token);
    assert token[1..] == r;
    assert text != "" ==> s[|text| - 1] == text[|text| - 1];
    FirstStartIs(s, |text|);
  }

  /** A colon inside of a text, as in (?:...), and a brace without a name or an end belong to the text. */
  lemma NoParameter(text: string, c: char, r: string)
    requires ':' !in text && '{' !in text && ':' !in r && '{' !in r
    requires (c == ':' && text != "" && text[|text| - 1] != '/') ||
      (c == '{' && ('}' !in r || r == "" || !('a' <= r[0] <= 'z' || 'A' <= r[0] <= 'Z' || r[0] == '_')))
    ensures Next(text + ([c] + r)) == None
  {
    var s := text + ([c] + r);
    TextBefore(text, [c] + r);
    assert ([c] + r)[1..] == r;
    forall j | 0 <= j < |s|
      ensures !Starts(s, j)
    {
      if j > |text| {
        assert s[j] == r[j - |text| - 1];
      } else if j == |text| {
        TextAt(text, c, r);
      }
    }
    hide Next, Starts;
    NoneLeft(s);
  }

  lemma TextAt(text: string, c: char, r: string)
    requires (c == ':' && text != "" && text[|text| - 1] != '/' && !Special(text[|text| - 1])) ||
      (c == '{' && ('}' !in r || r == "" || !NameStart(r[0])))
    ensures !Starts(text + ([c] + r), |text|)
  {
    var s := text + ([c] + r);
    assert s[|text| + 1..] == r && (text != "" ==> s[|text| - 1] == text[|text| - 1]);
  }

  /**
   Straight behind a colon or a brace that starts nothing a colon does start a parameter,
   although no slash is before it.
   */
  lemma ColonBehindSpecial(text: string, c: char, name: string, r: string)
    requires ':' !in text && '{' !in text && ((c == ':' && text != "" && text[|text| - 1] != '/') || c == '{')
    requires name != "" && ('a' <= name[0] <= 'z' || 'A' <= name[0] <= 'Z' || name[0] == '_')
    requires '/' !in name && (r == "" || r[0] == '/')
    ensures Next(text + ([c] + (":" + (name + r)))) == Some(Param(text + [c], name, "", Colon))
  {
    var rest := ":" + (name + r);
    var s := text + ([c] + rest);
    var i := |text| + 1;
    TextBefore(text, [c] + rest);
    SpecialAt(text, c, rest);
    SimpleNameIs(name, r);
    BehindSpecial(text, c, name + r);
    hide SimpleName, FirstStart, Braced, Next, Starts;
    FirstStartIs(s, i);
    NextColonIs(s, i);
  }

  /** What starts no parameter: a colon inside of a text, and a brace in front of a colon. */
  lemma SpecialAt(text: string, c: char, rest: string)
    requires rest != "" && rest[0] == ':'
    requires (c == ':' && text != "" && text[|text| - 1] != '/' && !Special(text[|text| - 1])) || c == '{'
    ensures !Starts(text + ([c] + rest), |text|)
  {
    var s := text + ([c] + rest);
    assert s[|text| + 1..] == rest && (text != "" ==> s[|text| - 1] == text[|text| - 1]);
  }

  lemma BehindSpecial(text: string, c: char, t: string)
    requires Special(c)
    ensures var s, i := text + ([c] + (":" + t)), |text| + 1;
      i < |s| && s[i] == ':' && s[i + 1..] == t && s[..i] == text + [c] && Starts(s, i)
  {
  }

  lemma BraceForm(text: string, content: string)
    ensures BraceParam(text, content).form != Colon
  {
  }

  lemma BraceIsNoColon(s: string, i: nat)
    requires i < |s| && FirstStart(s, 0) == i && s[i] == '{' && BraceName(s[i + 1..]).Some?
    ensures Next(s).Some? && Next(s).value.form != Colon
  {
    hide Next, FirstStart, BraceName, BraceParam;
    NextBraceIs(s, i);
    BraceForm(s[..i], BraceName(s[i + 1..]).value);
  }

  /** Behind a colon parameter comes a slash, or nothing. */
  lemma ColonEnds(s: string)
    requires Next(s).Some? && Next(s).value.form == Colon
    ensures Rest(s) == "" || Rest(s)[0] == '/'
  {
    var i := FirstStart(s, 0);
    assert i < |s| && Starts(s, i);
    hide Next, FirstStart, BraceName;
    if s[i] == '{' {
      BraceIsNoColon(s, i);
    } else {
      ColonRest(s, i);
    }
  }

  lemma ColonRest(s: string, i: nat)
    requires i < |s| && FirstStart(s, 0) == i && s[i] == ':' && Next(s).Some?
    ensures Rest(s) == "" || Rest(s)[0] == '/'
  {
    var t := s[i + 1..];
    var n := IndexOf(t, '/');
    assert Next(s) == Some(Param(s[..i], t[..n], "", Colon));
    hide Next, FirstStart, IndexOf, SimpleName;
    RestIs(s, i + 1 + n);
    assert n < |t| ==> s[i + 1 + n] == '/';
  }

  lemma RestIs(s: string, n: nat)
    requires Next(s).Some? && |Print(Next(s).value)| == n
    ensures n <= |s| && Rest(s) == s[n..]
  {
    hide Next, Print;
    NextPrints(s);
  }

  // ---------- reading back what was printed ----------

  /** A parameter that can be told from its text and from what follows it. */
  predicate Canonical(p: Param, r: string) {
    && ':' !in p.text && '{' !in p.text && p.name != ""
    && ('a' <= p.name[0] <= 'z' || 'A' <= p.name[0] <= 'Z' || p.name[0] == '_')
    && match p.form
       case Colon =>
         p.format == "" && (p.text == "" || p.text[|p.text| - 1] == '/') && '/' !in p.name && (r == "" || r[0] == '/')
       case Brace => p.format == "" && '}' !in p.name && ':' !in p.name
       case BraceColon => '}' !in p.name && ':' !in p.name && '}' !in p.format
  }

  /** The printed parameter, piece by piece. */
  lemma PrintedColon(text: string, name: string, r: string)
    ensures Print(Param(text, name, "", Colon)) + r == text + (":" + (name + r))
  {}

  lemma PrintedBrace(text: string, name: string, r: string)
    ensures Print(Param(text, name, "", Brace)) + r == text + ("{" + (name + ("}" + r)))
  {}

  lemma PrintedFormat(text: string, name: string, format: string, r: string)
    ensures Print(Param(text, name, format, BraceColon)) + r
         == text + ("{" + (name + (":" + (format + ("}" + r)))))
  {}

  lemma CanonicalIsNext(p: Param, r: string)
    requires Canonical(p, r)
    ensures Next(Print(p) + r) == Some(p)
  {
    hide Next, Print;
    match p.form {
      case Colon =>
        PrintedColon(p.text, p.name, r);
        ColonParameter(p.text, p.name, r);
      case Brace =>
        PrintedBrace(p.text, p.name, r);
        BraceParameter(p.text, p.name, r);
      case BraceColon =>
        PrintedFormat(p.text, p.name, p.format, r);
        BraceFormatParameter(p.text, p.name, p.format, r);
    }
  }

  lemma CanonicalIsRead(p: Param, r: string)
    requires Canonical(p, r)
    ensures Next(Print(p) + r) == Some(p) && Rest(Print(p) + r) == r
  {
    hide Next, Canonical, Print;
    CanonicalIsNext(p, r);
    RestIs(Print(p) + r, |Print(p)|);
  }

  predicate AllCanonical(ps: seq<Param>, end: string) {
    if ps == [] then ':' !in end && '{' !in end
    else Canonical(ps[0], PrintAll(ps[1..]) + end) && AllCanonical(ps[1..], end)
  }

  /** A printed list of parameters is read back as the same list, with the same end. */
  lemma {:induction false} PrintReadsBack(ps: seq<Param>, end: string)
    requires AllCanonical(ps, end)
    ensures Lex(PrintAll(ps) + end) == (ps, end)
    decreases |ps|
  {
    hide Next, Rest, Canonical;
    if ps == [] {
      PlainText(end);
      assert PrintAll(ps) + end == end;
    } else {
      var r := PrintAll(ps[1..]) + end;
      assert PrintAll(ps) + end == Print(ps[0]) + r;
      CanonicalIsRead(ps[0], r);
      PrintReadsBack(ps[1..], end);
      assert [ps[0]] + ps[1..] == ps;
    }
  }

  // ---------- the lexer ----------

  /** The first brace or colon of s at or after `from`, |s| if there is none. */
  method FindSpecial(s: string, from: nat) returns (i: nat)
    requires from <= |s|
    ensures from <= i <= |s|
    ensures forall k :: from <= k < i ==> !Special(s[k])
    ensures i < |s| ==> Special(s[i])
  {
    i := from;
    while i < |s| && !Special(s[i])
      invariant from <= i <= |s|
      invariant forall k :: from <= k < i ==> !Special(s[k])
    {
      i := i + 1;
    }
  }

  method SplitName(content: string) returns (name: string, format: string)
    ensures var p := BraceParam("", content); (name, format) == (p.name, p.format)
  {
    var c := IndexOf(content, ':');
    if c < |content| {
      name, format := content[..c], content[c + 1..];
    } else {
      name, format := content, "";
    }
  }

  /** The parameter has been read, up to position curr. */
  ghost predicate Read(s: string, curr: nat, text: string, name: string, format: string) {
    Next(s).Some? && var p := Next(s).value;
    p.text == text && p.name == name && p.format == format && curr == |Print(p)| <= |s|
  }

  /** Everything before curr is text in which no parameter starts. */
  ghost predicate Searching(s: string, curr: nat, text: string) {
    && curr <= |s| && text == s[..curr] && (curr == 0 || Special(s[curr - 1]))
    && forall k :: 0 <= k < curr ==> !Starts(s, k)
  }

  lemma SkipPlain(s: string, curr: nat, i: nat)
    requires curr <= i <= |s| && (forall k :: 0 <= k < curr ==> !Starts(s, k))
    requires forall k :: curr <= k < i ==> !Special(s[k])
    ensures forall k :: 0 <= k < i ==> !Starts(s, k)
  {
  }

  /** getNextParameter: `begin` moves past the parameter only when one is found. */
  method GetNextParameter(template: string, begin: nat)
    returns (found: bool, end: nat, text: string, name: string, format: string)
    requires begin <= |template|
    ensures found == Next(template[begin..]).Some?
    ensures !found ==> end == begin
    ensures found ==> begin <= end <= |template| && Read(template[begin..], end - begin, text, name, format)
  {
    var s := template[begin..];
    var curr: nat := 0;
    found, end, text, name, format := false, begin, "", "", "";
    hide Next, FirstStart, SimpleName, BraceName, BraceParam, Print;
    while !found
      invariant if found then Read(s, curr, text, name, format) else Searching(s, curr, text)
      decreases !found, |s| - curr
    {
      var i := FindSpecial(s, curr);
      SkipPlain(s, curr, i);
      if i == |s| {
        NoneLeft(s);
        return;
      }
      var position := i - curr;
      TextGrows(s, curr, i);
      text := text + s[curr..i];
      curr := i;
      if s[i] == ':' {
        if position == 0 || s[curr - 1] == '/' {
          FirstStartIs(s, i);
          curr := curr + 1;
          if SimpleName(s[curr..]).None? {
            NoName(s, i);
            return;
          }
          name, format := SimpleName(s[curr..]).value, "";
          ReadColon(s, i);
          curr := curr + |name|;
          found := true;
        }
      } else if BraceName(s[curr + 1..]).Some? {
        FirstStartIs(s, i);
        var nameAndFormat := BraceName(s[curr + 1..]).value;
        name, format := SplitName(nameAndFormat);
        ReadBrace(s, i);
        curr := curr + 1 + |nameAndFormat| + 1;
        found := true;
      }
      if !found {
        TextGrows(s, curr, curr + 1);
        NotHere(s, curr);
        text := text + s[curr..curr + 1];
        curr := curr + 1;
      }
    }
    end := begin + curr;
  }

  lemma TextGrows(s: string, i: nat, j: nat)
    requires i <= j <= |s|
    ensures s[..i] + s[i..j] == s[..j]
  {
  }

  lemma NotHere(s: string, i: nat)
    requires i < |s| && (forall k :: 0 <= k < i ==> !Starts(s, k)) && !Starts(s, i)
    ensures forall k :: 0 <= k < i + 1 ==> !Starts(s, k)
  {
  }

  lemma NoneLeft(s: string)
    requires forall k :: 0 <= k < |s| ==> !Starts(s, k)
    ensures Next(s) == None
  {
    FirstStartIs(s, |s|);
  }

  lemma NoName(s: string, i: nat)
    requires i < |s| && FirstStart(s, 0) == i && s[i] == ':' && SimpleName(s[i + 1..]) == None
    ensures Next(s) == None
  {
  }

  lemma ReadColon(s: string, i: nat)
    requires i < |s| && FirstStart(s, 0) == i && s[i] == ':' && SimpleName(s[i + 1..]).Some?
    ensures var name := SimpleName(s[i + 1..]).value; Read(s, i + 1 + |name|, s[..i], name, "")
  {
    hide FirstStart;
    NextColon(s, i);
  }

  lemma ReadBrace(s: string, i: nat)
    requires i < |s| && FirstStart(s, 0) == i && s[i] == '{' && BraceName(s[i + 1..]).Some?
    ensures var content := BraceName(s[i + 1..]).value; var p := BraceParam("", content);
      Read(s, i + 2 + |content|, s[..i], p.name, p.format)
  {
    hide FirstStart;
    NextBrace(s, i);
    BraceParamPrints(s[..i], BraceName(s[i + 1..]).value);
  }
}
