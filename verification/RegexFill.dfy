/**
 Patterns with placeholders. A template's own texts are parsed with one placeholder
 character for each parameter; where that parse shows every placeholder as a term of a
 sequence, closed patterns may be put in their places, and the parse of the result is
 known.
 */
module RegexFill {
  import opened RegexSyntax
  import opened RegexMatch
  import opened RegexGroups

  /** A character that stands for itself and ends nothing. */
  predicate Placeholder(h: char) {
    !QuantChar(h) && h !in "|()[]{}\\^$:"
  }

  function Holes(s: string, h: char): nat {
    if s == "" then 0 else (if s[0] == h then 1 else 0) + Holes(s[1..], h)
  }

  /** Each placeholder is replaced by the pattern for the number of placeholders behind it. */
  function Fill(s: string, h: char, f: nat -> string): string {
    if s == "" then ""
    else (if s[0] == h then f(Holes(s[1..], h)) else [s[0]]) + Fill(s[1..], h, f)
  }

  ghost predicate Closing(f: nat -> string) {
    forall n :: Closed(f(n))
  }

  /** The groups that the replacements bring in. */
  ghost function FillCount(s: string, h: char, f: nat -> string): nat
    requires Closing(f)
  {
    if s == "" then 0
    else (if s[0] == h then Count(ReOf(f(Holes(s[1..], h)))) else 0) + FillCount(s[1..], h, f)
  }

  /** Every placeholder is a term of its own, without a quantifier. */
  predicate Placed(r: Re, h: char) {
    match r
    case Empty => true
    case Atom(a) => a == [h] || h !in a
    case Cat(a, b) => Placed(a, h) && Placed(b, h)
    case Alt(a, b) => Placed(a, h) && Placed(b, h)
    case Rep(b, q) => h !in q && b != Atom([h]) && Placed(b, h)
    case Group(b) => Placed(b, h)
    case Capture(b) => Placed(b, h)
  }

  lemma {:induction false} FillPrefix(s: string, n: nat, h: char, f: nat -> string)
    requires n <= |s| && h !in s[..n] && Closing(f)
    ensures Fill(s, h, f) == s[..n] + Fill(s[n..], h, f) && FillCount(s, h, f) == FillCount(s[n..], h, f)
  {
    if n > 0 {
      assert s[0] in s[..n];
      assert s[..n] == [s[0]] + s[1..][..n - 1] && s[1..][n - 1..] == s[n..];
      FillPrefix(s[1..], n - 1, h, f);
    } else {
      assert s[0..] == s && s[..0] == "";
    }
  }

  // ---------- what is read from the front of a string ----------

  lemma {:induction false} ClassPrefix(s: string)
    requires ClassLen(s) > 0
    ensures ClassLen(s[..ClassLen(s)]) == ClassLen(s)
  {
    if s[0] != ']' {
      var step := if s[0] == '\\' then 2 else 1;
      ClassPrefix(s[step..]);
      var n := ClassLen(s);
      assert s[..n][step..] == s[step..][..n - step];
    }
  }

  lemma {:induction false} BracePrefix(s: string)
    requires BraceLen(s) > 0
    ensures BraceLen(s[..BraceLen(s)]) == BraceLen(s)
  {
    if s[0] != '}' {
      BracePrefix(s[1..]);
      var n := BraceLen(s);
      assert s[..n][1..] == s[1..][..n - 1];
    }
  }

  lemma QuantPrefix(s: string)
    requires QuantLen(s) > 0
    ensures QuantLen(s[..QuantLen(s)]) == QuantLen(s)
  {
    var q := QuantLen(s);
    var t := s[..q];
    if s[0] == '{' {
      var n := BraceLen(s);
      BracePrefix(s);
      BraceLenStable(s[..n], t[n..]);
      assert s[..n] + t[n..] == t;
      assert q == n + Lazy(s[n..]);
      assert t[n..] == s[n..][..q - n];
    } else {
      assert t[1..] == s[1..][..q - 1];
    }
  }

  /** Reading a quantifier, and reading a class, is not disturbed by what the rest becomes. */
  lemma QuantThen(s: string, u: string)
    requires NoQuant(u) && (QuantLen(s) == 0 ==> s == "")
    ensures QuantLen(s[..QuantLen(s)] + u) == QuantLen(s)
  {
    var q := QuantLen(s);
    if q > 0 {
      QuantPrefix(s);
      assert s[..q][q..] == "";
      QuantLenStable(s[..q], u);
    } else {
      assert s[..q] + u == u;
    }
  }

  lemma ClassThen(s: string, u: string)
    requires ClassLen(s) > 0
    ensures ClassLen(s[..ClassLen(s)] + u) == ClassLen(s)
  {
    ClassPrefix(s);
    ClassLenStable(s[..ClassLen(s)], u);
  }

  // ---------- a filled pattern does not start with a quantifier ----------

  lemma HoleTerm(s: string, h: char)
    requires s != "" && s[0] == h && Placeholder(h) && ParseSeq(s).Ok? && Placed(ParseSeq(s).re, h)
    ensures QuantLen(s[1..]) == 0 && ParseSeq(s[1..]).Ok? && Placed(ParseSeq(s[1..]).re, h)
    ensures ParseSeq(s) == Ok(Cat(Atom([h]), ParseSeq(s[1..]).re), ParseSeq(s[1..]).rest)
  {
    assert s[..1] == [h];
    assert ParseAtom(s) == Ok(Atom([h]), s[1..]);
    assert ParseTerm(s).Ok?;
    hide ParseAtom;
    assert s[1..][0..] == s[1..];
  }

  lemma {:induction false} FilledStartsClean(s: string, h: char, f: nat -> string)
    requires Placeholder(h) && Closing(f) && ParseSeq(s).Ok? && Placed(ParseSeq(s).re, h)
    ensures NoQuant(Fill(s, h, f))
    decreases |s|
  {
    if s != "" && s[0] == h {
      HoleTerm(s, h);
      hide ParseSeq, Placed;
      FilledStartsClean(s[1..], h, f);
      SeqStartsClean(f(Holes(s[1..], h)));
    } else if s != "" {
      SeqStartsClean(s);
    }
  }

  // ---------- two ways to fill the same placeholders ----------

  datatype Fills = Fills(h: char, f: nat -> string, g: nat -> string)

  /** The two patterns for a placeholder differ in capturing groups alone. */
  ghost predicate Matched(x: Fills) {
    && Placeholder(x.h) && Closing(x.f) && Closing(x.g)
    && forall n :: Erase(ReOf(x.f(n))) == Erase(ReOf(x.g(n)))
  }

  /** What has been read of s, with the patterns f in place of the placeholders. */
  ghost predicate Filled(s: string, h: char, f: nat -> string, p: Parsed, p': Parsed)
    requires Closing(f)
  {
    && p.Ok? && p'.Ok? && p'.rest == Fill(p.rest, h, f) && Bars(p'.re) == Bars(p.re)
    && p'.re.Capture? == p.re.Capture?
    && Count(p'.re) + FillCount(p.rest, h, f) == Count(p.re) + FillCount(s, h, f)
  }

  /** Both results at once: apart from capturing they are the same expression. */
  ghost predicate Twins(x: Fills, s: string, p: Parsed, pf: Parsed, pg: Parsed)
    requires Matched(x)
  {
    Filled(s, x.h, x.f, p, pf) && Filled(s, x.h, x.g, p, pg) && Erase(pf.re) == Erase(pg.re)
  }

  /** An atom without placeholders is read as it is. */
  lemma PlainAtom(x: Fills, s: string, n: nat, a: Re)
    requires Matched(x) && n <= |s| && x.h !in s[..n] && Count(a) == 0 && Bars(a) == 0 && !a.Capture?
    ensures Fill(s, x.h, x.f) == s[..n] + Fill(s[n..], x.h, x.f)
    ensures Fill(s, x.h, x.g) == s[..n] + Fill(s[n..], x.h, x.g)
    ensures Twins(x, s, Ok(a, s[n..]), Ok(a, Fill(s[n..], x.h, x.f)), Ok(a, Fill(s[n..], x.h, x.g)))
  {
    FillPrefix(s, n, x.h, x.f);
    FillPrefix(s, n, x.h, x.g);
  }

  lemma ClassAtom(s: string, u: string)
    requires s != "" && s[0] == '[' && ParseAtom(s).Ok?
    ensures var n := ClassLen(s[1..]) + 1;
      && n <= |s| && ParseAtom(s) == Ok(Atom(s[..n]), s[n..]) && ParseAtom(s[..n] + u) == Ok(Atom(s[..n]), u)
  {
    var n := ClassLen(s[1..]) + 1;
    var t := s[..n] + u;
    ClassThen(s[1..], u);
    assert t[1..] == s[1..][..n - 1] + u;
    assert t[..n] == s[..n] && t[n..] == u;
  }

  lemma EscapeAtom(s: string, u: string)
    requires s != "" && s[0] == '\\' && ParseAtom(s).Ok?
    ensures 2 <= |s| && ParseAtom(s) == Ok(Atom(s[..2]), s[2..]) && ParseAtom(s[..2] + u) == Ok(Atom(s[..2]), u)
  {
    var t := s[..2] + u;
    assert t[..2] == s[..2] && t[2..] == u;
  }

  lemma CharAtom(s: string, u: string)
    requires s != "" && s[0] != '(' && s[0] != '[' && s[0] != '\\' && ParseAtom(s).Ok?
    ensures ParseAtom(s) == Ok(Atom(s[..1]), s[1..]) && ParseAtom(s[..1] + u) == Ok(Atom(s[..1]), u)
  {
    var t := s[..1] + u;
    assert t[..1] == s[..1] && t[1..] == u;
  }

  /** A class, an escape or a character. */
  lemma SimpleAtomFill(x: Fills, s: string)
    requires Matched(x) && s != "" && s[0] != x.h && s[0] != '(' && ParseAtom(s).Ok? && Placed(ParseAtom(s).re, x.h)
    ensures Twins(x, s, ParseAtom(s), ParseAtom(Fill(s, x.h, x.f)), ParseAtom(Fill(s, x.h, x.g)))
  {
    hide Twins, Matched;
    var n := if s[0] == '[' then ClassLen(s[1..]) + 1 else if s[0] == '\\' then 2 else 1;
    var u, v := Fill(s[n..], x.h, x.f), Fill(s[n..], x.h, x.g);
    if s[0] == '[' {
      ClassAtom(s, u);
      ClassAtom(s, v);
    } else if s[0] == '\\' {
      EscapeAtom(s, u);
      EscapeAtom(s, v);
    } else {
      CharAtom(s, u);
      CharAtom(s, v);
    }
    NoHole(s, n, x.h);
    PlainAtom(x, s, n, Atom(s[..n]));
  }

  lemma NoHole(s: string, n: nat, h: char)
    requires 0 < n <= |s| && s[0] != h && Placed(Atom(s[..n]), h)
    ensures h !in s[..n]
  {
  }

  lemma FillChar(s: string, h: char, f: nat -> string)
    requires s != "" && s[0] != h && Closing(f)
    ensures Fill(s, h, f) == [s[0]] + Fill(s[1..], h, f) && FillCount(s, h, f) == FillCount(s[1..], h, f)
    ensures Fill(s, h, f)[1..] == Fill(s[1..], h, f)
  {
  }

  // ---------- the parser on filled patterns ----------

  lemma OpenParse(u: string)
    ensures ParseAtom("(?:" + u) == ParseBody(u, false)
    ensures NoQuant(u) ==> ParseAtom("(" + u) == ParseBody(u, true)
  {
    var s, t := "(?:" + u, "(" + u;
    assert s[3..] == u && t[1..] == u;
    assert u != "" ==> t[1] == u[0];
  }

  lemma OpensBody(s: string)
    requires s != "" && s[0] == '(' && ParseAtom(s).Ok?
    ensures var k := if |s| >= 2 && s[1] == '?' then 3 else 1;
      && k <= |s| && s[..k] == (if k == 3 then "(?:" else "(") && ParseAtom(s) == ParseBody(s[k..], k == 1)
  {
    hide ParseBody;
  }

  lemma BodyParse(s: string, capture: bool)
    requires ParseBody(s, capture).Ok?
    ensures ParseAlt(s).Ok? && ParseSeq(s).Ok?
    ensures var p := ParseAlt(s);
      p.rest != "" && p.rest[0] == ')' &&
      ParseBody(s, capture) == Ok(if capture then Capture(p.re) else Group(p.re), p.rest[1..])
  {
    hide ParseSeq;
  }

  lemma FirstSeqPlaced(s: string, h: char)
    requires ParseAlt(s).Ok? && Placed(ParseAlt(s).re, h)
    ensures ParseSeq(s).Ok? && Placed(ParseSeq(s).re, h)
  {
    hide ParseSeq;
  }

  lemma {:induction false} GroupAtomFill(x: Fills, s: string)
    requires Matched(x) && s != "" && s[0] == '(' && ParseAtom(s).Ok? && Placed(ParseAtom(s).re, x.h)
    ensures Twins(x, s, ParseAtom(s), ParseAtom(Fill(s, x.h, x.f)), ParseAtom(Fill(s, x.h, x.g)))
    decreases |s|, 0
  {
    OpensBody(s);
    var k := if |s| >= 2 && s[1] == '?' then 3 else 1;
    hide ParseAtom, ParseBody, Twins, Placed, Fill, FillCount, ParseAlt, ParseSeq;
    BodyFill(x, s[k..], k == 1);
    FillPrefix(s, k, x.h, x.f);
    FillPrefix(s, k, x.h, x.g);
    OpenParse(Fill(s[k..], x.h, x.f));
    OpenParse(Fill(s[k..], x.h, x.g));
    TwinsMore(x, s, k, ParseAtom(s), ParseAtom(Fill(s, x.h, x.f)), ParseAtom(Fill(s, x.h, x.g)));
  }

  /** What has been read before has no placeholder. */
  lemma TwinsMore(x: Fills, s: string, k: nat, p: Parsed, pf: Parsed, pg: Parsed)
    requires Matched(x) && k <= |s| && Twins(x, s[k..], p, pf, pg)
    requires FillCount(s, x.h, x.f) == FillCount(s[k..], x.h, x.f)
    requires FillCount(s, x.h, x.g) == FillCount(s[k..], x.h, x.g)
    ensures Twins(x, s, p, pf, pg)
  {
  }

  lemma {:induction false} BodyFill(x: Fills, s: string, capture: bool)
    requires Matched(x) && ParseBody(s, capture).Ok? && Placed(ParseBody(s, capture).re, x.h)
    ensures Twins(x, s, ParseBody(s, capture), ParseBody(Fill(s, x.h, x.f), capture),
      ParseBody(Fill(s, x.h, x.g), capture))
    ensures NoQuant(Fill(s, x.h, x.f)) && NoQuant(Fill(s, x.h, x.g))
    decreases |s|, 6
  {
    BodyParse(s, capture);
    BodyPlaced(s, capture, x.h);
    FirstSeqPlaced(s, x.h);
    hide ParseBody, Twins, Placed, Fill, FillCount, ParseAlt, ParseSeq;
    FilledStartsClean(s, x.h, x.f);
    FilledStartsClean(s, x.h, x.g);
    AltFill(x, s);
    ClosedBody(x, s, capture, ParseAlt(s));
  }

  lemma BodyPlaced(s: string, capture: bool, h: char)
    requires ParseBody(s, capture).Ok? && Placed(ParseBody(s, capture).re, h)
    ensures ParseAlt(s).Ok? && Placed(ParseAlt(s).re, h)
  {
    hide ParseAlt;
  }

  lemma ClosedBody(x: Fills, s: string, capture: bool, p: Parsed)
    requires Matched(x) && p.Ok? && p == ParseAlt(s) && ParseBody(s, capture).Ok? && p.rest != "" && p.rest[0] == ')'
    requires Twins(x, s, p, ParseAlt(Fill(s, x.h, x.f)), ParseAlt(Fill(s, x.h, x.g)))
    ensures Twins(x, s, ParseBody(s, capture), ParseBody(Fill(s, x.h, x.f), capture),
      ParseBody(Fill(s, x.h, x.g), capture))
  {
    hide ParseAlt, ParseBody, Fill, FillCount, Closing, Erase;
    BodyOfAlt(s, capture);
    BodyFilled(s, x.h, x.f, capture, p, ParseAlt(Fill(s, x.h, x.f)));
    BodyFilled(s, x.h, x.g, capture, p, ParseAlt(Fill(s, x.h, x.g)));
    BodyOfAlt(Fill(s, x.h, x.f), capture);
    BodyOfAlt(Fill(s, x.h, x.g), capture);
    EraseBody(ParseAlt(Fill(s, x.h, x.f)).re, ParseAlt(Fill(s, x.h, x.g)).re);
  }

  function Closer(p: Parsed, capture: bool): Parsed
    requires p.Ok? && p.rest != ""
  {
    Ok(if capture then Capture(p.re) else Group(p.re), p.rest[1..])
  }

  lemma EraseBody(a: Re, b: Re)
    requires Erase(a) == Erase(b)
    ensures Erase(Capture(a)) == Erase(Capture(b)) && Erase(Group(a)) == Erase(Group(b))
  {}

  lemma BodyFilled(s: string, h: char, f: nat -> string, capture: bool, p: Parsed, p': Parsed)
    requires Placeholder(h) && Closing(f) && Filled(s, h, f, p, p') && p.rest != "" && p.rest[0] == ')'
    ensures p'.rest != "" && p'.rest[0] == ')' && Filled(s, h, f, Closer(p, capture), Closer(p', capture))
  {
    FillChar(p.rest, h, f);
    hide Fill, FillCount, Closing;
  }

  lemma BodyOfAlt(s: string, capture: bool)
    requires ParseAlt(s).Ok? && ParseAlt(s).rest != "" && ParseAlt(s).rest[0] == ')'
    ensures ParseBody(s, capture) == Closer(ParseAlt(s), capture)
  {
    hide ParseAlt;
  }

  lemma {:induction false} AtomFill(x: Fills, s: string)
    requires Matched(x) && s != "" && s[0] != x.h && ParseAtom(s).Ok? && Placed(ParseAtom(s).re, x.h)
    ensures Twins(x, s, ParseAtom(s), ParseAtom(Fill(s, x.h, x.f)), ParseAtom(Fill(s, x.h, x.g)))
    decreases |s|, 1
  {
    hide *;
    if s[0] == '(' {
      GroupAtomFill(x, s);
    } else {
      SimpleAtomFill(x, s);
    }
  }

  lemma QuantOf(s: string)
    requires NoQuant(s)
    ensures QuantLen(s) == 0
  {
  }

  lemma TermParse(s: string)
    requires s != "" && ParseTerm(s).Ok?
    ensures ParseAtom(s).Ok?
    ensures var a := ParseAtom(s); var q := QuantLen(a.rest);
      ParseTerm(s) == if q == 0 then a else Ok(Rep(a.re, a.rest[..q]), a.rest[q..])
  {
    hide ParseAtom, QuantLen;
  }

  lemma {:induction false} TermFill(x: Fills, s: string)
    requires Matched(x) && s != "" && s[0] != x.h && ParseTerm(s).Ok? && Placed(ParseTerm(s).re, x.h)
    requires ParseSeq(ParseTerm(s).rest).Ok? && Placed(ParseSeq(ParseTerm(s).rest).re, x.h)
    ensures Fill(s, x.h, x.f) != "" && Fill(s, x.h, x.g) != ""
    ensures Twins(x, s, ParseTerm(s), ParseTerm(Fill(s, x.h, x.f)), ParseTerm(Fill(s, x.h, x.g)))
    decreases |s|, 2
  {
    TermParse(s);
    TermPlaced(s, x.h);
    FillChar(s, x.h, x.f);
    FillChar(s, x.h, x.g);
    hide ParseAtom, ParseTerm, Twins, Placed, Fill, FillCount, ParseSeq, QuantLen;
    var t := ParseTerm(s);
    FilledStartsClean(t.rest, x.h, x.f);
    FilledStartsClean(t.rest, x.h, x.g);
    AtomFill(x, s);
    QuantFill(x, s, ParseAtom(s), x.f);
    QuantFill(x, s, ParseAtom(s), x.g);
    TermTwins(x, s);
  }

  lemma TermPlaced(s: string, h: char)
    requires s != "" && ParseTerm(s).Ok? && Placed(ParseTerm(s).re, h)
    ensures ParseAtom(s).Ok? && Placed(ParseAtom(s).re, h)
    ensures var a := ParseAtom(s); h !in a.rest[..QuantLen(a.rest)]
  {
    hide ParseAtom, QuantLen;
    var a := ParseAtom(s);
    assert a.rest[..0] == "";
  }

  /** The quantifier behind an atom is read as it is. */
  lemma QuantFill(x: Fills, s: string, a: Parsed, f: nat -> string)
    requires a.Ok? && Closing(f)
    requires var q := QuantLen(a.rest); x.h !in a.rest[..q] && NoQuant(Fill(a.rest[q..], x.h, f))
    ensures var q := QuantLen(a.rest); var u := Fill(a.rest, x.h, f);
      && QuantLen(u) == q && u[..q] == a.rest[..q] && u[q..] == Fill(a.rest[q..], x.h, f)
      && FillCount(a.rest, x.h, f) == FillCount(a.rest[q..], x.h, f)
  {
    var q := QuantLen(a.rest);
    FillPrefix(a.rest, q, x.h, f);
    var v := Fill(a.rest[q..], x.h, f);
    hide Fill, FillCount;
    if q == 0 {
      assert a.rest[..0] + v == v;
      QuantOf(v);
    } else {
      QuantThen(a.rest, v);
    }
  }

  lemma TermTwins(x: Fills, s: string)
    requires Matched(x) && s != "" && Fill(s, x.h, x.f) != "" && Fill(s, x.h, x.g) != "" && ParseTerm(s).Ok?
    requires ParseAtom(s).Ok?
    requires Twins(x, s, ParseAtom(s), ParseAtom(Fill(s, x.h, x.f)), ParseAtom(Fill(s, x.h, x.g)))
    requires var a := ParseAtom(s).rest; var q := QuantLen(a);
      && (var u := Fill(a, x.h, x.f); QuantLen(u) == q && u[..q] == a[..q] && u[q..] == Fill(a[q..], x.h, x.f))
      && (var u := Fill(a, x.h, x.g); QuantLen(u) == q && u[..q] == a[..q] && u[q..] == Fill(a[q..], x.h, x.g))
      && FillCount(a, x.h, x.f) == FillCount(a[q..], x.h, x.f)
      && FillCount(a, x.h, x.g) == FillCount(a[q..], x.h, x.g)
    ensures Twins(x, s, ParseTerm(s), ParseTerm(Fill(s, x.h, x.f)), ParseTerm(Fill(s, x.h, x.g)))
  {
    hide ParseAtom, Fill, FillCount, QuantLen;
  }

  predicate SeqEnds(s: string) {
    s == "" || s[0] == '|' || s[0] == ')'
  }

  lemma {:induction false} SeqRest(s: string)
    requires ParseSeq(s).Ok?
    ensures SeqEnds(ParseSeq(s).rest)
    decreases |s|
  {
    if !SeqEnds(s) {
      SeqRest(ParseTerm(s).rest);
    }
  }

  lemma EndFill(x: Fills, s: string)
    requires Matched(x) && SeqEnds(s)
    ensures SeqEnds(Fill(s, x.h, x.f)) && SeqEnds(Fill(s, x.h, x.g))
    ensures s != "" ==> Fill(s, x.h, x.f) != "" && Fill(s, x.h, x.f)[0] == s[0]
    ensures s != "" ==> Fill(s, x.h, x.g) != "" && Fill(s, x.h, x.g)[0] == s[0]
    ensures s == "" ==> Fill(s, x.h, x.f) == "" && Fill(s, x.h, x.g) == ""
    ensures Twins(x, s, ParseSeq(s), ParseSeq(Fill(s, x.h, x.f)), ParseSeq(Fill(s, x.h, x.g)))
  {
  }

  lemma {:induction false} SeqFill(x: Fills, s: string)
    requires Matched(x) && ParseSeq(s).Ok? && Placed(ParseSeq(s).re, x.h)
    ensures Twins(x, s, ParseSeq(s), ParseSeq(Fill(s, x.h, x.f)), ParseSeq(Fill(s, x.h, x.g)))
    decreases |s|, 3
  {
    hide ParseSeq, ParseTerm, Twins, Placed, Fill, FillCount;
    if SeqEnds(s) {
      EndFill(x, s);
    } else if s[0] == x.h {
      HoleTerm(s, x.h);
      SeqFill(x, s[1..]);
      FilledStartsClean(s[1..], x.h, x.f);
      FilledStartsClean(s[1..], x.h, x.g);
      HoleTwins(x, s);
    } else {
      SeqParts(s, x.h);
      TermFill(x, s);
      SeqFill(x, ParseTerm(s).rest);
      FillChar(s, x.h, x.f);
      FillChar(s, x.h, x.g);
      SeqTwins(x, s);
    }
  }

  lemma SeqParts(s: string, h: char)
    requires !SeqEnds(s) && ParseSeq(s).Ok? && Placed(ParseSeq(s).re, h)
    ensures ParseTerm(s).Ok? && Placed(ParseTerm(s).re, h)
    ensures var t := ParseTerm(s); ParseSeq(t.rest).Ok? && Placed(ParseSeq(t.rest).re, h)
  {
    hide ParseTerm;
  }

  lemma HoleParse(s: string, h: char, f: nat -> string)
    requires s != "" && s[0] == h && Closing(f) && NoQuant(Fill(s[1..], h, f)) && ParseSeq(Fill(s[1..], h, f)).Ok?
    ensures var b, p := f(Holes(s[1..], h)), ParseSeq(Fill(s[1..], h, f));
      && Closed(b) && ParseSeq(Fill(s, h, f)) == Ok(Append(ReOf(b), p.re), p.rest)
      && Erase(Append(ReOf(b), p.re)) == Append(Erase(ReOf(b)), Erase(p.re))
      && Count(Append(ReOf(b), p.re)) == Count(ReOf(b)) + Count(p.re)
      && Bars(Append(ReOf(b), p.re)) == 0 && !Append(ReOf(b), p.re).Capture?
      && FillCount(s, h, f) == Count(ReOf(b)) + FillCount(s[1..], h, f)
  {
    var b, u := f(Holes(s[1..], h)), Fill(s[1..], h, f);
    assert Fill(s, h, f) == b + u;
    SeqIsChain(b);
    SeqIsChain(u);
    hide ParseTerm, Fill;
    SeqJoin(b, u);
    hide ParseSeq;
    EraseAppend(ReOf(b), ParseSeq(u).re);
    CountAppend(ReOf(b), ParseSeq(u).re);
    AppendIsChain(ReOf(b), ParseSeq(u).re);
  }

  lemma HoleTwins(x: Fills, s: string)
    requires Matched(x) && s != "" && s[0] == x.h && ParseSeq(s[1..]).Ok?
    requires ParseSeq(s) == Ok(Cat(Atom([x.h]), ParseSeq(s[1..]).re), ParseSeq(s[1..]).rest)
    requires NoQuant(Fill(s[1..], x.h, x.f)) && NoQuant(Fill(s[1..], x.h, x.g))
    requires var u := s[1..]; Twins(x, u, ParseSeq(u), ParseSeq(Fill(u, x.h, x.f)), ParseSeq(Fill(u, x.h, x.g)))
    ensures Twins(x, s, ParseSeq(s), ParseSeq(Fill(s, x.h, x.f)), ParseSeq(Fill(s, x.h, x.g)))
  {
    hide ParseSeq, Fill, FillCount, Append, Closed, ReOf;
    HoleParse(s, x.h, x.f);
    HoleParse(s, x.h, x.g);
    var n, u := Holes(s[1..], x.h), s[1..];
    assert Erase(ReOf(x.f(n))) == Erase(ReOf(x.g(n)));
    HoleBoth(x, s, u, ParseSeq(u), ParseSeq(Fill(u, x.h, x.f)), ParseSeq(Fill(u, x.h, x.g)), ReOf(x.f(n)),
      ReOf(x.g(n)));
  }

  ghost predicate Appended(b: Re, r: Re) {
    var a := Append(b, r);
    Erase(a) == Append(Erase(b), Erase(r)) && Count(a) == Count(b) + Count(r) && Bars(a) == 0 && !a.Capture?
  }

  lemma HoleBoth(x: Fills, s: string, u: string, p: Parsed, pf: Parsed, pg: Parsed, b: Re, b': Re)
    requires Matched(x) && Twins(x, u, p, pf, pg) && Erase(b) == Erase(b')
    requires Appended(b, pf.re) && Appended(b', pg.re)
    requires FillCount(s, x.h, x.f) == Count(b) + FillCount(u, x.h, x.f)
    requires FillCount(s, x.h, x.g) == Count(b') + FillCount(u, x.h, x.g)
    ensures Twins(x, s, Ok(Cat(Atom([x.h]), p.re), p.rest), Ok(Append(b, pf.re), pf.rest),
      Ok(Append(b', pg.re), pg.rest))
  {
    hide Fill, FillCount, Append, Erase, Closing;
    HoleSide(s, u, x.h, x.f, p, pf, b);
    HoleSide(s, u, x.h, x.g, p, pg, b');
  }

  lemma HoleSide(s: string, u: string, h: char, f: nat -> string, p: Parsed, p': Parsed, b: Re)
    requires Closing(f) && Filled(u, h, f, p, p') && Appended(b, p'.re)
    requires FillCount(s, h, f) == Count(b) + FillCount(u, h, f)
    ensures Filled(s, h, f, Ok(Cat(Atom([h]), p.re), p.rest), Ok(Append(b, p'.re), p'.rest))
  {
    hide Fill, FillCount, Append, Erase, Closing;
    assert Bars(Cat(Atom([h]), p.re)) == 0 && Count(Cat(Atom([h]), p.re)) == Count(p.re);
  }

  lemma SeqStepParse(s: string)
    requires !SeqEnds(s) && ParseTerm(s).Ok? && ParseSeq(ParseTerm(s).rest).Ok?
    ensures var t := ParseTerm(s); ParseSeq(s) == Ok(Cat(t.re, ParseSeq(t.rest).re), ParseSeq(t.rest).rest)
  {
    hide ParseTerm;
  }

  lemma SeqTwins(x: Fills, s: string)
    requires Matched(x) && !SeqEnds(s) && ParseTerm(s).Ok? && ParseSeq(ParseTerm(s).rest).Ok?
    requires !SeqEnds(Fill(s, x.h, x.f)) && !SeqEnds(Fill(s, x.h, x.g))
    requires Twins(x, s, ParseTerm(s), ParseTerm(Fill(s, x.h, x.f)), ParseTerm(Fill(s, x.h, x.g)))
    requires var u := ParseTerm(s).rest;
      Twins(x, u, ParseSeq(u), ParseSeq(Fill(u, x.h, x.f)), ParseSeq(Fill(u, x.h, x.g)))
    ensures Twins(x, s, ParseSeq(s), ParseSeq(Fill(s, x.h, x.f)), ParseSeq(Fill(s, x.h, x.g)))
  {
    hide ParseSeq, ParseTerm, Fill, FillCount;
    SeqStepParse(s);
    SeqStepParse(Fill(s, x.h, x.f));
    SeqStepParse(Fill(s, x.h, x.g));
  }

  lemma AltParse(s: string)
    requires ParseSeq(s).Ok?
    ensures var p := ParseSeq(s);
      ParseAlt(s) ==
        if p.rest == "" || p.rest[0] != '|' then p
        else match ParseAlt(p.rest[1..]) { case Fail => Fail case Ok(b, rest) => Ok(Alt(p.re, b), rest) }
  {
    hide ParseSeq;
  }

  lemma {:induction false} AltFill(x: Fills, s: string)
    requires Matched(x) && ParseAlt(s).Ok? && Placed(ParseAlt(s).re, x.h)
    ensures Twins(x, s, ParseAlt(s), ParseAlt(Fill(s, x.h, x.f)), ParseAlt(Fill(s, x.h, x.g)))
    decreases |s|, 5
  {
    FirstSeqPlaced(s, x.h);
    AltParse(s);
    SeqRest(s);
    SeqIsChain(s);
    hide ParseSeq, ParseAlt, Twins, Fill, FillCount, SeqEnds;
    SeqFill(x, s);
    var p := ParseSeq(s);
    SeqResults(x, s);
    EndFill(x, p.rest);
    AltParse(Fill(s, x.h, x.f));
    AltParse(Fill(s, x.h, x.g));
    if p.rest != "" && p.rest[0] == '|' {
      AltFill(x, p.rest[1..]);
      FillChar(p.rest, x.h, x.f);
      FillChar(p.rest, x.h, x.g);
      AltTwins(x, s);
    }
  }

  lemma SeqResults(x: Fills, s: string)
    requires Matched(x) && Twins(x, s, ParseSeq(s), ParseSeq(Fill(s, x.h, x.f)), ParseSeq(Fill(s, x.h, x.g)))
    ensures ParseSeq(s).Ok? && ParseSeq(Fill(s, x.h, x.f)).Ok? && ParseSeq(Fill(s, x.h, x.g)).Ok?
    ensures ParseSeq(Fill(s, x.h, x.f)).rest == Fill(ParseSeq(s).rest, x.h, x.f)
    ensures ParseSeq(Fill(s, x.h, x.g)).rest == Fill(ParseSeq(s).rest, x.h, x.g)
  {
    hide ParseSeq, Fill, FillCount;
  }

  lemma AltTwins(x: Fills, s: string)
    requires Matched(x) && ParseSeq(s).Ok? && ParseSeq(Fill(s, x.h, x.f)).Ok? && ParseSeq(Fill(s, x.h, x.g)).Ok?
    requires Twins(x, s, ParseSeq(s), ParseSeq(Fill(s, x.h, x.f)), ParseSeq(Fill(s, x.h, x.g)))
    requires ParseSeq(s).rest != "" && ParseSeq(s).rest[0] != x.h
    requires var u := ParseSeq(s).rest[1..];
      Twins(x, u, ParseAlt(u), ParseAlt(Fill(u, x.h, x.f)), ParseAlt(Fill(u, x.h, x.g)))
    ensures var u := ParseSeq(s).rest[1..];
      var q, qf, qg := ParseAlt(u), ParseAlt(Fill(u, x.h, x.f)), ParseAlt(Fill(u, x.h, x.g));
      && q.Ok? && qf.Ok? && qg.Ok?
      && Twins(x, s, Ok(Alt(ParseSeq(s).re, q.re), q.rest), Ok(Alt(ParseSeq(Fill(s, x.h, x.f)).re, qf.re), qf.rest),
               Ok(Alt(ParseSeq(Fill(s, x.h, x.g)).re, qg.re), qg.rest))
  {
    var r := ParseSeq(s).rest;
    FillChar(r, x.h, x.f);
    FillChar(r, x.h, x.g);
    hide ParseSeq, ParseAlt, Fill;
    var u := r[1..];
    BothAlternatives(x, s, ParseSeq(s), ParseSeq(Fill(s, x.h, x.f)), ParseSeq(Fill(s, x.h, x.g)),
                     u, ParseAlt(u), ParseAlt(Fill(u, x.h, x.f)), ParseAlt(Fill(u, x.h, x.g)));
  }

  lemma BothAlternatives(x: Fills, s: string, p: Parsed, pf: Parsed, pg: Parsed,
                         u: string, q: Parsed, qf: Parsed, qg: Parsed)
    requires Matched(x) && Twins(x, s, p, pf, pg) && Twins(x, u, q, qf, qg)
    requires FillCount(p.rest, x.h, x.f) == FillCount(u, x.h, x.f)
    requires FillCount(p.rest, x.h, x.g) == FillCount(u, x.h, x.g)
    ensures q.Ok? && qf.Ok? && qg.Ok?
    ensures Twins(x, s, Ok(Alt(p.re, q.re), q.rest), Ok(Alt(pf.re, qf.re), qf.rest), Ok(Alt(pg.re, qg.re), qg.rest))
  {
    hide Fill, FillCount;
  }
}
