/**
 What a pattern accepts and what its groups capture. The engine decides which
 characters an atom matches and how often a quantifier repeats; everything else is
 the meaning of the operators. A string is accepted if there is some way to split it,
 so nothing here depends on greediness or on the order in which an engine searches.
 */
module RegexMatch {
  import opened RegexSyntax

  datatype Engine = Engine(atom: (string, char) -> bool, repeats: (string, nat) -> bool)

  ghost predicate Accepts(e: Engine, r: Re, s: string)
    decreases r, 0
  {
    match r
    case Empty => s == ""
    case Atom(a) => |s| == 1 && e.atom(a, s[0])
    case Cat(a, b) => exists i: nat :: i <= |s| && Accepts(e, a, s[..i]) && Accepts(e, b, s[i..])
    case Alt(a, b) => Accepts(e, a, s) || Accepts(e, b, s)
    case Rep(b, q) => exists k: nat :: e.repeats(q, k) && Power(e, b, s, k)
    case Group(b) => Accepts(e, b, s)
    case Capture(b) => Accepts(e, b, s)
  }

  ghost predicate Power(e: Engine, r: Re, s: string, k: nat)
    decreases r, k + 1
  {
    if k == 0 then s == ""
    else exists i: nat :: i <= |s| && Accepts(e, r, s[..i]) && Power(e, r, s[i..], k - 1)
  }

  predicate NoCapture(r: Re) {
    match r
    case Empty => true
    case Atom(_) => true
    case Cat(a, b) => NoCapture(a) && NoCapture(b)
    case Alt(a, b) => NoCapture(a) && NoCapture(b)
    case Rep(b, _) => NoCapture(b)
    case Group(b) => NoCapture(b)
    case Capture(_) => false
  }

  /**
   The strings that the groups hold after a match, in the order of their opening
   parentheses. A group under an alternation or a repetition is not described.
   */
  ghost predicate Captures(e: Engine, r: Re, s: string, caps: seq<string>) {
    match r
    case Capture(b) => caps != [] && caps[0] == s && Captures(e, b, s, caps[1..])
    case Cat(a, b) =>
      exists i: nat, m: nat :: i <= |s| && m <= |caps| &&
        Captures(e, a, s[..i], caps[..m]) && Captures(e, b, s[i..], caps[m..])
    case _ => NoCapture(r) && caps == [] && Accepts(e, r, s)
  }

  // ---------- accepting and capturing along a concatenation ----------

  ghost predicate Splits(e: Engine, a: Re, b: Re, s: string, i: nat) {
    i <= |s| && Accepts(e, a, s[..i]) && Accepts(e, b, s[i..])
  }

  lemma AcceptsCat(e: Engine, a: Re, b: Re, s: string, i: nat)
    requires Splits(e, a, b, s, i)
    ensures Accepts(e, Cat(a, b), s)
  {
  }

  lemma SplitCat(e: Engine, a: Re, b: Re, s: string) returns (i: nat)
    requires Accepts(e, Cat(a, b), s)
    ensures Splits(e, a, b, s, i)
  {
    i :| i <= |s| && Accepts(e, a, s[..i]) && Accepts(e, b, s[i..]);
  }

  lemma Cuts(s: string, j: nat, i: nat)
    requires j <= i <= |s|
    ensures s[..i][..j] == s[..j]
    ensures s[..i][j..] == s[j..][..i - j]
    ensures s[j..][i - j..] == s[i..]
  {}

  lemma {:induction false} AcceptsAppend(e: Engine, r: Re, t: Re, s: string, i: nat)
    requires Chain(r) && Splits(e, r, t, s, i)
    ensures Accepts(e, Append(r, t), s)
  {
    match r {
      case Cat(a, b) =>
        var j := SplitCat(e, a, b, s[..i]);
        Cuts(s, j, i);
        hide Accepts;
        AcceptsAppend(e, b, t, s[j..], i - j);
        AcceptsCat(e, a, Append(b, t), s, j);
      case Empty =>
        assert s[i..] == s;
    }
  }

  lemma {:induction false} SplitAppend(e: Engine, r: Re, t: Re, s: string) returns (i: nat)
    requires Chain(r) && Accepts(e, Append(r, t), s)
    ensures Splits(e, r, t, s, i)
  {
    match r {
      case Cat(a, b) =>
        hide Accepts;
        var j := SplitCat(e, a, Append(b, t), s);
        var k := SplitAppend(e, b, t, s[j..]);
        i := j + k;
        Cuts(s, j, i);
        AcceptsCat(e, a, b, s[..i], j);
      case Empty =>
        i := 0;
        assert s[0..] == s && s[..0] == "";
    }
  }

  ghost predicate CapturesAt(e: Engine, a: Re, b: Re, s: string, caps: seq<string>, i: nat, m: nat) {
    && i <= |s| && m <= |caps|
    && Captures(e, a, s[..i], caps[..m]) && Captures(e, b, s[i..], caps[m..])
  }

  lemma CapturesCat(e: Engine, a: Re, b: Re, s: string, caps: seq<string>, i: nat, m: nat)
    requires CapturesAt(e, a, b, s, caps, i, m)
    ensures Captures(e, Cat(a, b), s, caps)
  {
  }

  lemma SplitCaptures(e: Engine, a: Re, b: Re, s: string, caps: seq<string>) returns (i: nat, m: nat)
    requires Captures(e, Cat(a, b), s, caps)
    ensures CapturesAt(e, a, b, s, caps, i, m)
  {
    i, m :| i <= |s| && m <= |caps| && Captures(e, a, s[..i], caps[..m]) && Captures(e, b, s[i..], caps[m..]);
  }

  /** Without captures, capturing is accepting. */
  lemma {:induction false} CapturesNothing(e: Engine, r: Re, s: string, caps: seq<string>)
    requires NoCapture(r)
    ensures Captures(e, r, s, caps) <==> caps == [] && Accepts(e, r, s)
  {
    match r {
      case Cat(a, b) =>
        if Captures(e, r, s, caps) {
          var i, m := SplitCaptures(e, a, b, s, caps);
          CapturesNothing(e, a, s[..i], caps[..m]);
          CapturesNothing(e, b, s[i..], caps[m..]);
          AcceptsCat(e, a, b, s, i);
        }
        if caps == [] && Accepts(e, r, s) {
          var i := SplitCat(e, a, b, s);
          CapturesNothing(e, a, s[..i], []);
          CapturesNothing(e, b, s[i..], []);
          assert caps[..0] == [] && caps[0..] == [];
          CapturesCat(e, a, b, s, caps, i, 0);
        }
      case _ =>
    }
  }

  lemma CapturesAfterNone(e: Engine, a: Re, b: Re, s: string, caps: seq<string>, i: nat)
    requires i <= |s| && Captures(e, a, s[..i], []) && Captures(e, b, s[i..], caps)
    ensures Captures(e, Cat(a, b), s, caps)
  {
    assert caps[..0] == [] && caps[0..] == caps;
    hide Captures;
    CapturesCat(e, a, b, s, caps, i, 0);
  }

  lemma EmptyPrefix(e: Engine, s: string, i: nat)
    requires i <= |s| && Accepts(e, Empty, s[..i])
    ensures s[i..] == s
  {
  }

  /** A prefix without captures takes none of them. */
  lemma {:induction false} CapturesAppend(e: Engine, r: Re, t: Re, s: string, caps: seq<string>, i: nat)
    requires Chain(r) && NoCapture(r) && i <= |s| && Accepts(e, r, s[..i]) && Captures(e, t, s[i..], caps)
    ensures Captures(e, Append(r, t), s, caps)
  {
    hide Accepts, Captures;
    match r {
      case Cat(a, b) =>
        var j := SplitCat(e, a, b, s[..i]);
        assert s[..i][..j] == s[..j];
        assert s[j..][..i - j] == s[..i][j..] && s[j..][i - j..] == s[i..];
        CapturesAppend(e, b, t, s[j..], caps, i - j);
        CapturesNothing(e, a, s[..j], []);
        CapturesAfterNone(e, a, Append(b, t), s, caps, j);
      case Empty =>
        EmptyPrefix(e, s, i);
    }
  }

  lemma {:induction false} SplitCapturesAppend(e: Engine, r: Re, t: Re, s: string, caps: seq<string>) returns (i: nat)
    requires Chain(r) && NoCapture(r) && Captures(e, Append(r, t), s, caps)
    ensures i <= |s| && Accepts(e, r, s[..i]) && Captures(e, t, s[i..], caps)
  {
    match r {
      case Cat(a, b) =>
        var j, m := SplitCaptures(e, a, Append(b, t), s, caps);
        CapturesNothing(e, a, s[..j], caps[..m]);
        assert m == 0 && caps[m..] == caps;
        var k := SplitCapturesAppend(e, b, t, s[j..], caps);
        i := j + k;
        assert s[..i][..j] == s[..j] && s[..i][j..] == s[j..][..k];
        assert s[i..] == s[j..][k..];
        AcceptsCat(e, a, b, s[..i], j);
      case Empty =>
        i := 0;
        assert s[0..] == s && s[..0] == "";
    }
  }

  // ---------- a text, a middle and a rest ----------

  lemma Slices(s: string, i: nat, n: nat)
    requires i <= n <= |s|
    ensures s[i..][..n - i] == s[i..n] && s[i..][n - i..] == s[n..]
  {
  }

  lemma AcceptsThree(e: Engine, r: Re, m: Re, t: Re, s: string, i: nat, n: nat)
    requires Chain(r) && Chain(m) && i <= n <= |s|
    requires Accepts(e, r, s[..i]) && Accepts(e, m, s[i..n]) && Accepts(e, t, s[n..])
    ensures Accepts(e, Append(r, Append(m, t)), s)
  {
    hide Accepts, Append;
    Slices(s, i, n);
    AcceptsAppend(e, m, t, s[i..], n - i);
    AcceptsAppend(e, r, Append(m, t), s, i);
  }

  lemma AcceptsGroup(e: Engine, r: Re, m: Re, t: Re, s: string, i: nat, n: nat)
    requires Chain(r) && i <= n <= |s|
    requires Accepts(e, r, s[..i]) && Accepts(e, m, s[i..n]) && Accepts(e, t, s[n..])
    ensures Accepts(e, Append(r, Cat(Capture(m), t)), s)
  {
    assert Accepts(e, Capture(m), s[i..n]);
    hide Accepts, Append;
    Slices(s, i, n);
    AcceptsCat(e, Capture(m), t, s[i..], n - i);
    AcceptsAppend(e, r, Cat(Capture(m), t), s, i);
  }

  lemma SplitThree(e: Engine, r: Re, m: Re, t: Re, s: string) returns (i: nat, n: nat)
    requires Chain(r) && Chain(m) && Accepts(e, Append(r, Append(m, t)), s)
    ensures i <= n <= |s| && Accepts(e, r, s[..i]) && Accepts(e, m, s[i..n]) && Accepts(e, t, s[n..])
  {
    hide Accepts, Append;
    i := SplitAppend(e, r, Append(m, t), s);
    var j := SplitAppend(e, m, t, s[i..]);
    n := i + j;
    Slices(s, i, n);
  }

  lemma SplitGroup(e: Engine, r: Re, m: Re, t: Re, s: string) returns (i: nat, n: nat)
    requires Chain(r) && Accepts(e, Append(r, Cat(Capture(m), t)), s)
    ensures i <= n <= |s| && Accepts(e, r, s[..i]) && Accepts(e, m, s[i..n]) && Accepts(e, t, s[n..])
  {
    AcceptsCaptured(e, m);
    hide Accepts, Append;
    i := SplitAppend(e, r, Cat(Capture(m), t), s);
    var j := SplitCat(e, Capture(m), t, s[i..]);
    n := i + j;
    Slices(s, i, n);
  }

  lemma AcceptsCaptured(e: Engine, m: Re)
    ensures forall s {:trigger Accepts(e, Capture(m), s)} :: Accepts(e, Capture(m), s) == Accepts(e, m, s)
  {
  }

  /** The group holds the middle, and the groups inside it come before those of the rest. */
  lemma CapturesGroup(e: Engine, r: Re, m: Re, t: Re, s: string, i: nat, n: nat, inside: seq<string>, rest: seq<string>)
    requires Chain(r) && NoCapture(r) && i <= n <= |s|
    requires Accepts(e, r, s[..i]) && Captures(e, m, s[i..n], inside) && Captures(e, t, s[n..], rest)
    ensures Captures(e, Append(r, Cat(Capture(m), t)), s, [s[i..n]] + (inside + rest))
  {
    CaptureCaptures(e, m, s[i..n], inside);
    hide Accepts, Captures, Append, NoCapture;
    var mine := [s[i..n]] + inside;
    Regroup(s[i..n], inside, rest);
    CapturesBoth(e, Capture(m), t, s, i, n, mine, rest);
    CapturesAppend(e, r, Cat(Capture(m), t), s, mine + rest, i);
  }

  lemma Regroup(first: string, inside: seq<string>, rest: seq<string>)
    ensures [first] + inside + rest == [first] + (inside + rest)
  {}

  lemma CapturesBoth(e: Engine, m: Re, t: Re, s: string, i: nat, n: nat, mine: seq<string>, rest: seq<string>)
    requires i <= n <= |s| && Captures(e, m, s[i..n], mine) && Captures(e, t, s[n..], rest)
    ensures Captures(e, Cat(m, t), s[i..], mine + rest)
  {
    hide Captures;
    var caps := mine + rest;
    assert caps[..|mine|] == mine && caps[|mine|..] == rest;
    Slices(s, i, n);
    CapturesCat(e, m, t, s[i..], caps, n - i, |mine|);
  }

  lemma CaptureCaptures(e: Engine, m: Re, s: string, inside: seq<string>)
    requires Captures(e, m, s, inside)
    ensures Captures(e, Capture(m), s, [s] + inside)
  {
    assert ([s] + inside)[1..] == inside;
  }

  lemma CapturedInside(e: Engine, m: Re, s: string, caps: seq<string>)
    requires Captures(e, Capture(m), s, caps)
    ensures caps != [] && caps[0] == s && Captures(e, m, s, caps[1..])
  {
  }

  lemma SplitCapturesGroup(e: Engine, r: Re, m: Re, t: Re, s: string, caps: seq<string>)
      returns (i: nat, n: nat, k: nat)
    requires Chain(r) && NoCapture(r) && Captures(e, Append(r, Cat(Capture(m), t)), s, caps)
    ensures i <= n <= |s| && 1 <= k <= |caps| && Accepts(e, r, s[..i]) && caps[0] == s[i..n]
    ensures Captures(e, m, s[i..n], caps[1..k]) && Captures(e, t, s[n..], caps[k..])
  {
    hide Accepts, Captures, Append, NoCapture;
    i := SplitCapturesAppend(e, r, Cat(Capture(m), t), s, caps);
    var j;
    j, k := SplitCaptures(e, Capture(m), t, s[i..], caps);
    CapturedInside(e, m, s[i..][..j], caps[..k]);
    n := i + j;
    Slices(s, i, n);
    assert caps[..k][1..] == caps[1..k];
  }
}
