/**
 The capturing groups of a pattern: how many there are, what the pattern is without them,
 and how the alternatives of two patterns combine when their texts are put together.
 */
module RegexGroups {
  import opened RegexSyntax
  import opened RegexMatch

  /** The capturing groups. */
  function Count(r: Re): nat {
    match r
    case Empty => 0
    case Atom(_) => 0
    case Cat(a, b) => Count(a) + Count(b)
    case Alt(a, b) => Count(a) + Count(b)
    case Rep(b, _) => Count(b)
    case Group(b) => Count(b)
    case Capture(b) => 1 + Count(b)
  }

  lemma {:induction false} CountNone(r: Re)
    ensures Count(r) == 0 <==> NoCapture(r)
  {
    match r {
      case Cat(a, b) => CountNone(a); CountNone(b);
      case Alt(a, b) => CountNone(a); CountNone(b);
      case Rep(b, _) => CountNone(b);
      case Group(b) => CountNone(b);
      case _ =>
    }
  }

  lemma {:induction false} CountAppend(r: Re, t: Re)
    requires Chain(r)
    ensures Count(Append(r, t)) == Count(r) + Count(t)
  {
    match r {
      case Cat(_, b) => CountAppend(b, t);
      case Empty =>
    }
  }

  // ---------- a pattern without its capturing groups ----------

  /** A sequence is spliced into the sequence around it, everything else is one of its terms. */
  function Glue(x: Re, t: Re): Re {
    if Chain(x) then Append(x, t) else Cat(x, t)
  }

  function Erase(r: Re): Re {
    match r
    case Empty => Empty
    case Atom(_) => r
    case Cat(a, b) => if a.Capture? then Glue(Erase(a.body), Erase(b)) else Cat(Erase(a), Erase(b))
    case Alt(a, b) => Alt(Erase(a), Erase(b))
    case Rep(b, q) => Rep(Erase(b), q)
    case Group(b) => Group(Erase(b))
    case Capture(b) => Erase(b)
  }

  ghost predicate SameLanguage(e: Engine, r: Re, t: Re) {
    forall s :: Accepts(e, r, s) <==> Accepts(e, t, s)
  }

  lemma GlueAccepts(e: Engine, x: Re, t: Re, s: string)
    ensures Accepts(e, Glue(x, t), s) <==> Accepts(e, Cat(x, t), s)
  {
    if Chain(x) {
      if Accepts(e, Append(x, t), s) {
        var i := SplitAppend(e, x, t, s);
        AcceptsCat(e, x, t, s, i);
      }
      if Accepts(e, Cat(x, t), s) {
        var i := SplitCat(e, x, t, s);
        AcceptsAppend(e, x, t, s, i);
      }
    }
  }

  lemma CatInto(e: Engine, a: Re, a': Re, b: Re, b': Re, s: string)
    requires SameLanguage(e, a, a') && SameLanguage(e, b, b') && Accepts(e, Cat(a, b), s)
    ensures Accepts(e, Cat(a', b'), s)
  {
    hide Accepts;
    var i := SplitCat(e, a, b, s);
    AcceptsCat(e, a', b', s, i);
  }

  lemma SameCat(e: Engine, a: Re, a': Re, b: Re, b': Re)
    requires SameLanguage(e, a, a') && SameLanguage(e, b, b')
    ensures SameLanguage(e, Cat(a, b), Cat(a', b'))
  {
    hide Accepts;
    forall s
      ensures Accepts(e, Cat(a, b), s) <==> Accepts(e, Cat(a', b'), s)
    {
      if Accepts(e, Cat(a, b), s) {
        CatInto(e, a, a', b, b', s);
      }
      if Accepts(e, Cat(a', b'), s) {
        CatInto(e, a', a, b', b, s);
      }
    }
  }

  lemma {:induction false} SamePower(e: Engine, r: Re, t: Re, s: string, k: nat)
    requires SameLanguage(e, r, t) && Power(e, r, s, k)
    ensures Power(e, t, s, k)
    decreases k
  {
    if k > 0 {
      var i: nat :| i <= |s| && Accepts(e, r, s[..i]) && Power(e, r, s[i..], k - 1);
      SamePower(e, r, t, s[i..], k - 1);
    }
  }

  lemma SameRep(e: Engine, r: Re, t: Re, q: string)
    requires SameLanguage(e, r, t)
    ensures SameLanguage(e, Rep(r, q), Rep(t, q))
  {
    forall s
      ensures Accepts(e, Rep(r, q), s) <==> Accepts(e, Rep(t, q), s)
    {
      if Accepts(e, Rep(r, q), s) {
        var k: nat :| e.repeats(q, k) && Power(e, r, s, k);
        SamePower(e, r, t, s, k);
      }
      if Accepts(e, Rep(t, q), s) {
        var k: nat :| e.repeats(q, k) && Power(e, t, s, k);
        SamePower(e, t, r, s, k);
      }
    }
  }

  lemma SameGlue(e: Engine, x: Re, t: Re)
    ensures SameLanguage(e, Glue(x, t), Cat(x, t))
  {
    hide Glue, Accepts;
    forall s
      ensures Accepts(e, Glue(x, t), s) <==> Accepts(e, Cat(x, t), s)
    {
      GlueAccepts(e, x, t, s);
    }
  }

  lemma SameCapture(e: Engine, b: Re)
    ensures SameLanguage(e, Capture(b), b)
  {
  }

  lemma SameTrans(e: Engine, a: Re, b: Re, c: Re)
    requires SameLanguage(e, a, b) && SameLanguage(e, b, c)
    ensures SameLanguage(e, a, c)
  {
  }

  lemma SameAlt(e: Engine, a: Re, a': Re, b: Re, b': Re)
    requires SameLanguage(e, a, a') && SameLanguage(e, b, b')
    ensures SameLanguage(e, Alt(a, b), Alt(a', b'))
  {
  }

  lemma SameGroup(e: Engine, b: Re, b': Re)
    requires SameLanguage(e, b, b')
    ensures SameLanguage(e, Group(b), Group(b')) && SameLanguage(e, Capture(b'), b)
  {
  }

  /** Capturing does not change what is accepted. */
  lemma {:induction false} EraseKeepsLanguage(e: Engine, r: Re)
    ensures SameLanguage(e, Erase(r), r)
  {
    hide SameLanguage, Accepts, Glue;
    match r {
      case Cat(a, b) =>
        EraseKeepsLanguage(e, b);
        if a.Capture? {
          EraseKeepsLanguage(e, a.body);
          SameGlue(e, Erase(a.body), Erase(b));
          SameCapture(e, a.body);
          SameFlip(e, Capture(a.body), a.body);
          SameTrans(e, Erase(a.body), a.body, a);
          SameCat(e, Erase(a.body), a, Erase(b), b);
          SameTrans(e, Glue(Erase(a.body), Erase(b)), Cat(Erase(a.body), Erase(b)), r);
        } else {
          EraseKeepsLanguage(e, a);
          SameCat(e, Erase(a), a, Erase(b), b);
        }
      case Alt(a, b) =>
        EraseKeepsLanguage(e, a);
        EraseKeepsLanguage(e, b);
        SameAlt(e, Erase(a), a, Erase(b), b);
      case Rep(b, q) =>
        EraseKeepsLanguage(e, b);
        SameRep(e, Erase(b), b, q);
      case Group(b) =>
        EraseKeepsLanguage(e, b);
        SameGroup(e, Erase(b), b);
      case Capture(b) =>
        EraseKeepsLanguage(e, b);
        SameCapture(e, b);
        SameFlip(e, r, b);
        SameTrans(e, Erase(b), b, r);
      case _ =>
        SameSelf(e, r);
    }
  }

  lemma SameFlip(e: Engine, a: Re, b: Re)
    requires SameLanguage(e, a, b)
    ensures SameLanguage(e, b, a)
  {
  }

  lemma SameSelf(e: Engine, a: Re)
    ensures SameLanguage(e, a, a)
  {
  }

  lemma {:induction false} AppendAssociates(a: Re, b: Re, c: Re)
    requires Chain(a)
    ensures Append(Append(a, b), c) == Append(a, Append(b, c))
  {
    match a {
      case Cat(_, rest) => AppendAssociates(rest, b, c);
      case Empty =>
    }
  }

  lemma {:induction false} AppendIsChain(a: Re, b: Re)
    requires Chain(a) && Chain(b)
    ensures Chain(Append(a, b))
  {
    match a {
      case Cat(_, rest) => AppendIsChain(rest, b);
      case Empty =>
    }
  }

  lemma {:induction false} EraseIsChain(r: Re)
    requires Chain(r)
    ensures Chain(Erase(r))
  {
    match r {
      case Cat(a, b) =>
        EraseIsChain(b);
        if a.Capture? && Chain(Erase(a.body)) {
          AppendIsChain(Erase(a.body), Erase(b));
        }
      case Empty =>
    }
  }

  lemma {:induction false} EraseAppend(r: Re, t: Re)
    requires Chain(r)
    ensures Erase(Append(r, t)) == Append(Erase(r), Erase(t))
  {
    match r {
      case Cat(a, b) =>
        EraseAppend(b, t);
        if a.Capture? && Chain(Erase(a.body)) {
          AppendAssociates(Erase(a.body), Erase(b), Erase(t));
        }
      case Empty =>
    }
  }

  // ---------- patterns with alternatives ----------

  /** A pattern on its own: sequences with bars between them. */
  predicate Whole(s: string) {
    ParseAlt(s).Ok? && ParseAlt(s).rest == ""
  }

  function AltOf(s: string): Re
    requires Whole(s)
  {
    ParseAlt(s).re
  }

  predicate Alternatives(r: Re) {
    if r.Alt? then Chain(r.left) && Alternatives(r.right) else Chain(r)
  }

  /** The bars outside of all parentheses. */
  function Bars(r: Re): nat {
    if r.Alt? then 1 + Bars(r.right) else 0
  }

  lemma {:induction false} AltIsAlternatives(s: string)
    requires ParseAlt(s).Ok?
    ensures Alternatives(ParseAlt(s).re)
    decreases |s|
  {
    SeqIsChain(s);
    var rest := ParseSeq(s).rest;
    if rest != "" && rest[0] == '|' {
      AltIsAlternatives(rest[1..]);
    }
  }

  /** A whole pattern is closed exactly when it has no bar. */
  lemma ClosedIsWithoutBars(s: string)
    requires Whole(s)
    ensures Closed(s) <==> Bars(AltOf(s)) == 0
    ensures Closed(s) ==> ReOf(s) == AltOf(s)
  {
    SeqIsChain(s);
  }

  lemma ClosedIsWhole(s: string)
    requires Closed(s)
    ensures Whole(s) && AltOf(s) == ReOf(s) && Bars(AltOf(s)) == 0
  {
    SeqIsChain(s);
  }

  /** The alternatives of a text in front of those of another: the last meets the first. */
  function Splice(t: Re, x: Re): Re {
    if t.Alt? then Alt(t.left, Splice(t.right, x))
    else if x.Alt? then Alt(Append(t, x.left), x.right)
    else Append(t, x)
  }

  lemma {:induction false} SpliceBars(t: Re, x: Re)
    requires Alternatives(t) && Alternatives(x)
    ensures Bars(Splice(t, x)) == Bars(t) + Bars(x) && Alternatives(Splice(t, x))
  {
    if t.Alt? {
      SpliceBars(t.right, x);
    } else {
      AppendIsChain(t, if x.Alt? then x.left else x);
    }
  }

  lemma {:induction false} EraseAlternatives(r: Re)
    requires Alternatives(r)
    ensures Alternatives(Erase(r)) && Bars(Erase(r)) == Bars(r)
  {
    if r.Alt? {
      EraseIsChain(r.left);
      EraseAlternatives(r.right);
    } else {
      EraseIsChain(r);
    }
  }

  lemma {:induction false} EraseSplice(t: Re, x: Re)
    requires Alternatives(t) && Alternatives(x)
    ensures Erase(Splice(t, x)) == Splice(Erase(t), Erase(x))
  {
    EraseAlternatives(x);
    if t.Alt? {
      EraseSplice(t.right, x);
    } else {
      EraseIsChain(t);
      EraseAppend(t, if x.Alt? then x.left else x);
    }
  }

  lemma {:induction false} SpliceParse(t: string, u: string)
    requires Whole(t) && Whole(u)
    ensures Whole(t + u) && AltOf(t + u) == Splice(AltOf(t), AltOf(u))
    decreases |t|
  {
    var rest := ParseSeq(t).rest;
    SeqStartsClean(u);
    SeqIsChain(t);
    SeqIsChain(u);
    if rest == "" {
      SeqJoin(t, u);
    } else {
      SeqStable(t, u);
      SpliceParse(rest[1..], u);
      assert (rest + u)[1..] == rest[1..] + u;
    }
  }

  lemma {:induction false} WholeBeforeClose(b: string, u: string)
    requires Whole(b)
    ensures ParseAlt(b + (")" + u)) == Ok(AltOf(b), ")" + u)
    decreases |b|
  {
    var rest := ParseSeq(b).rest;
    var w := ")" + u;
    SeqIsChain(b);
    if rest == "" {
      assert ParseSeq(w) == Ok(Empty, w);
      SeqJoin(b, w);
      AppendEmpty(ReOf(b));
    } else {
      SeqStable(b, w);
      WholeBeforeClose(rest[1..], u);
      assert (rest + w)[1..] == rest[1..] + w;
    }
  }

  /** Any whole pattern becomes one group when it is put in parentheses. */
  lemma GroupParse(b: string)
    requires Whole(b)
    ensures Whole("(" + b + ")") && AltOf("(" + b + ")") == Cat(Capture(AltOf(b)), Empty)
  {
    var p := "(" + b + ")";
    WholeBeforeClose(b, "");
    SeqStartsClean(b);
    assert p[1..] == b + (")" + "");
    assert p[1] == (b + ")")[0];
    assert ")" + "" == ")" && ")"[1..] == "";
    assert ParseBody(p[1..], true) == Ok(Capture(AltOf(b)), "");
    hide ParseBody, ParseAlt;
    assert ParseAtom(p) == Ok(Capture(AltOf(b)), "");
    ParsedAtom(p, Capture(AltOf(b)));
  }

  lemma ParsedAtom(p: string, a: Re)
    requires p != "" && p[0] == '(' && ParseAtom(p) == Ok(a, "")
    ensures Whole(p) && AltOf(p) == Cat(a, Empty)
  {
    assert ParseTerm(p) == Ok(a, "");
    hide ParseAtom, ParseTerm;
    assert ParseSeq("") == Ok(Empty, "");
    assert ParseSeq(p) == Ok(Cat(a, Empty), "");
  }
}
