/**
 The regular expressions that URI templates are compiled to, at the level of their
 characters: a parser for the part of the ECMAScript grammar that templates use, and
 the facts about concatenating pattern strings that the template compiler relies on.
 Anchors, look-ahead and back references are outside this grammar.
 */
module RegexSyntax {
  datatype Re =
    | Empty
    | Atom(text: string)                 // a character, an escape, a class
    | Cat(first: Re, rest: Re)
    | Alt(left: Re, right: Re)
    | Rep(body: Re, quantifier: string)
    | Group(body: Re)                    // (?:...)
    | Capture(body: Re)                  // (...)

  datatype Parsed = Fail | Ok(re: Re, rest: string)

  predicate QuantChar(c: char) {
    c == '*' || c == '+' || c == '?' || c == '{'
  }

  /** A string that can follow an atom without quantifying it. */
  predicate NoQuant(s: string) {
    s == "" || !QuantChar(s[0])
  }

  function Lazy(s: string): nat {
    if s != "" && s[0] == '?' then 1 else 0
  }

  /** The length of s up to and including the first closing brace, 0 if there is none. */
  function BraceLen(s: string): (n: nat)
    ensures n <= |s|
  {
    if s == "" then 0
    else if s[0] == '}' then 1
    else if BraceLen(s[1..]) == 0 then 0
    else 1 + BraceLen(s[1..])
  }

  /** The length of the quantifier that s starts with, 0 if it starts with none. */
  function QuantLen(s: string): (n: nat)
    ensures n <= |s|
  {
    if s == "" then 0
    else if s[0] == '*' || s[0] == '+' || s[0] == '?' then 1 + Lazy(s[1..])
    else if s[0] == '{' && BraceLen(s) > 0 then BraceLen(s) + Lazy(s[BraceLen(s)..])
    else 0
  }

  /** The length of s up to and including the first unescaped closing bracket, 0 if there is none. */
  function ClassLen(s: string): (n: nat)
    ensures n <= |s|
  {
    if s == "" then 0
    else if s[0] == ']' then 1
    else
      var step := if s[0] == '\\' then 2 else 1;
      if step > |s| || ClassLen(s[step..]) == 0 then 0 else step + ClassLen(s[step..])
  }

  function ParseAlt(s: string): (r: Parsed)
    ensures r.Ok? ==> |r.rest| <= |s|
    decreases |s|, 3
  {
    match ParseSeq(s)
    case Fail => Fail
    case Ok(a, rest) =>
      if rest == "" || rest[0] != '|' then Ok(a, rest) else
      match ParseAlt(rest[1..])
      case Fail => Fail
      case Ok(b, rest') => Ok(Alt(a, b), rest')
  }

  function ParseSeq(s: string): (r: Parsed)
    ensures r.Ok? ==> |r.rest| <= |s|
    decreases |s|, 2
  {
    if s == "" || s[0] == '|' || s[0] == ')' then Ok(Empty, s) else
    match ParseTerm(s)
    case Fail => Fail
    case Ok(t, rest) =>
      match ParseSeq(rest)
      case Fail => Fail
      case Ok(r, rest') => Ok(Cat(t, r), rest')
  }

  function ParseTerm(s: string): (r: Parsed)
    requires s != ""
    ensures r.Ok? ==> |r.rest| < |s|
    decreases |s|, 1
  {
    match ParseAtom(s)
    case Fail => Fail
    case Ok(a, rest) =>
      var q := QuantLen(rest);
      if q == 0 then Ok(a, rest) else Ok(Rep(a, rest[..q]), rest[q..])
  }

  function ParseAtom(s: string): (r: Parsed)
    requires s != ""
    ensures r.Ok? ==> |r.rest| < |s|
    decreases |s|, 0
  {
    if s[0] == '(' then
      if |s| >= 2 && s[1] == '?' then
        if |s| >= 3 && s[2] == ':' then ParseBody(s[3..], false) else Fail
      else ParseBody(s[1..], true)
    else if s[0] == '[' then
      var n := ClassLen(s[1..]);
      if n == 0 then Fail else Ok(Atom(s[..n + 1]), s[n + 1..])
    else if s[0] == '\\' then
      if |s| >= 2 then Ok(Atom(s[..2]), s[2..]) else Fail
    else if QuantChar(s[0]) || s[0] == '|' || s[0] == ')' || s[0] == '^' || s[0] == '$' then Fail
    else Ok(Atom(s[..1]), s[1..])
  }

  /** What follows an opening parenthesis, with the closing one. */
  function ParseBody(s: string, capture: bool): (r: Parsed)
    ensures r.Ok? ==> |r.rest| < |s|
    decreases |s|, 4
  {
    match ParseAlt(s)
    case Fail => Fail
    case Ok(b, rest) =>
      if rest == "" || rest[0] != ')' then Fail
      else Ok(if capture then Capture(b) else Group(b), rest[1..])
  }

  // ---------- a parse is not disturbed by what follows ----------

  lemma {:induction false} ClassLenStable(s: string, u: string)
    requires ClassLen(s) > 0
    ensures ClassLen(s + u) == ClassLen(s)
  {
    if s[0] != ']' {
      var step := if s[0] == '\\' then 2 else 1;
      ClassLenStable(s[step..], u);
      assert (s + u)[step..] == s[step..] + u;
    }
  }

  lemma {:induction false} BraceLenStable(s: string, u: string)
    requires BraceLen(s) > 0
    ensures BraceLen(s + u) == BraceLen(s)
  {
    if s[0] != '}' {
      BraceLenStable(s[1..], u);
      assert (s + u)[1..] == s[1..] + u;
    }
  }

  lemma QuantLenStable(s: string, u: string)
    requires s[QuantLen(s)..] == "" ==> NoQuant(u)
    requires QuantLen(s) == 0 ==> NoQuant(s)
    ensures QuantLen(s + u) == QuantLen(s)
  {
    if s == "" {
      assert s + u == u;
    } else if s[0] == '{' {
      BraceLenStable(s, u);
      var n := BraceLen(s);
      assert (s + u)[n..] == s[n..] + u;
    } else {
      assert (s + u)[1..] == s[1..] + u;
    }
  }

  lemma Slices(s: string, u: string, n: nat)
    requires n <= |s|
    ensures (s + u)[..n] == s[..n]
    ensures (s + u)[n..] == s[n..] + u
  {}

  lemma {:induction false} AtomStable(s: string, u: string)
    requires s != "" && ParseAtom(s).Ok?
    ensures ParseAtom(s + u) == Ok(ParseAtom(s).re, ParseAtom(s).rest + u)
    decreases |s|, 0
  {
    hide *;
    if s[0] == '(' {
      ParenthesisAtom(s);
      ParenthesisAtom(s + u);
      if |s| >= 2 && s[1] == '?' {
        BodyStable(s[3..], u, false);
        Slices(s, u, 3);
      } else {
        BodyNotEmpty(s[1..], true);
        BodyStable(s[1..], u, true);
        Slices(s, u, 1);
      }
    } else if s[0] == '[' {
      ClassStable(s, u);
    } else {
      CharacterStable(s, u);
    }
  }

  lemma ParenthesisAtom(s: string)
    requires s != "" && s[0] == '('
    ensures |s| >= 2 && s[1] == '?' && ParseAtom(s).Ok? ==> |s| >= 3 && s[2] == ':'
    ensures |s| >= 3 && s[1] == '?' && s[2] == ':' ==> ParseAtom(s) == ParseBody(s[3..], false)
    ensures |s| < 2 || s[1] != '?' ==> ParseAtom(s) == ParseBody(s[1..], true)
  {
    hide ParseAlt, ParseBody;
  }

  lemma BodyNotEmpty(s: string, capture: bool)
    requires ParseBody(s, capture).Ok?
    ensures s != ""
  {
    hide ParseAlt;
  }

  lemma ClassStable(s: string, u: string)
    requires s != "" && s[0] == '[' && ParseAtom(s).Ok?
    ensures ParseAtom(s + u) == Ok(ParseAtom(s).re, ParseAtom(s).rest + u)
  {
    hide ParseAlt, ParseBody, ClassLen;
    var n := ClassLen(s[1..]);
    ClassLenStable(s[1..], u);
    Slices(s, u, 1);
    Slices(s, u, n + 1);
  }

  lemma CharacterStable(s: string, u: string)
    requires s != "" && s[0] != '(' && s[0] != '[' && ParseAtom(s).Ok?
    ensures ParseAtom(s + u) == Ok(ParseAtom(s).re, ParseAtom(s).rest + u)
  {
    hide ParseAlt, ParseBody, ClassLen;
    Slices(s, u, if s[0] == '\\' then 2 else 1);
  }

  lemma {:induction false} BodyStable(s: string, u: string, capture: bool)
    requires ParseBody(s, capture).Ok?
    ensures ParseBody(s + u, capture) == Ok(ParseBody(s, capture).re, ParseBody(s, capture).rest + u)
    decreases |s|, 4
  {
    hide ParseAlt;
    AltStable(s, u);
    Slices(ParseAlt(s).rest, u, 1);
  }

  lemma {:induction false} TermStable(s: string, u: string)
    requires s != "" && ParseTerm(s).Ok?
    requires if ParseTerm(s).rest == "" then NoQuant(u) else NoQuant(ParseTerm(s).rest)
    ensures ParseTerm(s + u) == Ok(ParseTerm(s).re, ParseTerm(s).rest + u)
    decreases |s|, 1
  {
    hide ParseAtom, QuantLen;
    AtomStable(s, u);
    var rest := ParseAtom(s).rest;
    QuantLenStable(rest, u);
    Slices(rest, u, QuantLen(rest));
  }

  lemma SeqStartsClean(s: string)
    requires ParseSeq(s).Ok?
    ensures NoQuant(s)
  {
    assert !NoQuant(s) ==> ParseAtom(s) == Fail;
  }

  lemma {:induction false} SeqStable(s: string, u: string)
    requires ParseSeq(s).Ok? && ParseSeq(s).rest != ""
    ensures ParseSeq(s + u) == Ok(ParseSeq(s).re, ParseSeq(s).rest + u)
    decreases |s|, 2
  {
    if s[0] != '|' && s[0] != ')' {
      var rest := ParseTerm(s).rest;
      SeqStartsClean(rest);
      TermStable(s, u);
      SeqStable(rest, u);
    }
  }

  lemma {:induction false} AltStable(s: string, u: string)
    requires ParseAlt(s).Ok? && ParseAlt(s).rest != ""
    ensures ParseAlt(s + u) == Ok(ParseAlt(s).re, ParseAlt(s).rest + u)
    decreases |s|, 3
  {
    var rest := ParseSeq(s).rest;
    SeqStable(s, u);
    if rest[0] == '|' {
      AltStable(rest[1..], u);
      assert (rest + u)[1..] == rest[1..] + u;
    }
  }

  // ---------- patterns that can be concatenated ----------

  /**
   A pattern that is one sequence of terms: it has no top-level alternation and no
   unbalanced parenthesis, and it does not start with a quantifier.
   */
  predicate Closed(s: string) {
    ParseSeq(s).Ok? && ParseSeq(s).rest == ""
  }

  function ReOf(s: string): Re
    requires Closed(s)
  {
    ParseSeq(s).re
  }

  function Append(r: Re, t: Re): Re {
    match r
    case Cat(a, b) => Cat(a, Append(b, t))
    case _ => t
  }

  predicate Chain(r: Re) {
    match r
    case Empty => true
    case Cat(_, b) => Chain(b)
    case _ => false
  }

  lemma {:induction false} SeqIsChain(s: string)
    requires ParseSeq(s).Ok?
    ensures Chain(ParseSeq(s).re)
    decreases |s|
  {
    if !(s == "" || s[0] == '|' || s[0] == ')') {
      SeqIsChain(ParseTerm(s).rest);
    }
  }

  lemma {:induction false} AppendEmpty(r: Re)
    requires Chain(r)
    ensures Append(r, Empty) == r
  {
    match r {
      case Cat(_, b) => AppendEmpty(b);
      case _ =>
    }
  }

  /** Parsing a closed pattern and then anything that does not quantify it. */
  lemma {:induction false} SeqJoin(s: string, u: string)
    requires Closed(s) && NoQuant(u)
    ensures ParseSeq(s + u) ==
      match ParseSeq(u) { case Fail => Fail case Ok(t, rest) => Ok(Append(ReOf(s), t), rest) }
    decreases |s|
  {
    if s == "" {
      assert s + u == u;
    } else {
      var rest := ParseTerm(s).rest;
      SeqStartsClean(rest);
      TermStable(s, u);
      SeqJoin(rest, u);
    }
  }

  /** Closed patterns are closed under concatenation, and the parses are concatenated. */
  lemma JoinClosed(s: string, t: string)
    requires Closed(s) && Closed(t)
    ensures Closed(s + t) && ReOf(s + t) == Append(ReOf(s), ReOf(t))
  {
    SeqStartsClean(t);
    SeqJoin(s, t);
  }

  lemma AltOfClosed(s: string, t: string)
    requires Closed(s)
    ensures ParseAlt(s + (")" + t)) == Ok(ReOf(s), ")" + t)
  {
    SeqJoin(s, ")" + t);
    SeqIsChain(s);
    AppendEmpty(ReOf(s));
  }

  lemma ParenthesesSlices(s: string, t: string)
    ensures var p := "(" + s + ")" + t;
      |p| >= 2 && p[0] == '(' && p[1..] == s + (")" + t) && p[1] == if s == "" then ')' else s[0]
    ensures (")" + t)[1..] == t
  {}

  lemma ParenthesesParse(s: string, t: string)
    requires Closed(s)
    ensures var p := "(" + s + ")" + t; p != "" && ParseAtom(p) == Ok(Capture(ReOf(s)), t)
  {
    var p := "(" + s + ")" + t;
    SeqStartsClean(s);
    AltOfClosed(s, t);
    ParenthesesSlices(s, t);
    hide Closed, ParseAlt, ReOf;
  }

  /** A closed pattern in parentheses, before a closed pattern, is one capture. */
  lemma JoinCapture(s: string, t: string)
    requires Closed(s) && Closed(t)
    ensures Closed("(" + s + ")" + t) && ReOf("(" + s + ")" + t) == Cat(Capture(ReOf(s)), ReOf(t))
  {
    var p := "(" + s + ")" + t;
    SeqStartsClean(t);
    ParenthesesParse(s, t);
    hide ParseAtom;
    assert p[0] == '(';
    assert ParseTerm(p) == Ok(Capture(ReOf(s)), t);
  }
}
