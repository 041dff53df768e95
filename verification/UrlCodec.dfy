/**
 Percent-encoding of URLs (RFC 3986, section 2.1) and its inverse. Strings are byte
 strings; the two sets of characters that are left alone are the caller's choice.
 */
module UrlCodec {
  import opened Wrappers

  newtype uint32 = x: int | 0 <= x < 0x1_0000_0000

  const PERCENT: byte := 37
  const PLUS: byte := 43
  const SPACE: byte := 32
  const QUESTION: byte := 63

  predicate Alnum(c: byte) {
    48 <= c <= 57 || 65 <= c <= 90 || 97 <= c <= 122
  }

  /** The characters that are not encoded. */
  predicate Kept(c: byte, allowed: Bytes) {
    Alnum(c) || c in allowed
  }

  function HexValue(c: byte): (v: int)
    ensures -1 <= v < 16
  {
    if 48 <= c <= 57 then c as int - 48
    else if 65 <= c <= 70 then c as int - 65 + 10
    else if 97 <= c <= 102 then c as int - 97 + 10
    else -1
  }

  function HexPairValue(c1: byte, c2: byte): (v: int)
    ensures -1 <= v < 256
    ensures v >= 0 <==> HexValue(c1) >= 0 && HexValue(c2) >= 0
  {
    if HexValue(c1) >= 0 && HexValue(c2) >= 0 then HexValue(c1) * 16 + HexValue(c2) else -1
  }

  function UpperHexDigit(v: int): byte
    requires 0 <= v < 16
  {
    if v < 10 then (48 + v) as byte else (55 + v) as byte
  }

  function Triple(c: byte): Bytes {
    [PERCENT, UpperHexDigit(c as int / 16), UpperHexDigit(c as int % 16)]
  }

  /** s starts with a percent sign and two hexadecimal digits. */
  predicate TripleAt(s: Bytes) {
    |s| > 2 && s[0] == PERCENT && HexPairValue(s[1], s[2]) >= 0
  }

  // ---------- the specification ----------

  function Encode(s: Bytes, skip: bool, allowed: Bytes): Bytes {
    if s == [] then []
    else if Kept(s[0], allowed) then [s[0]] + Encode(s[1..], skip, allowed)
    else if skip && s[0] == PERCENT && |s| > 2 then
      if TripleAt(s) then s[..3] + Encode(s[3..], skip, allowed) else Encode(s[1..], skip, allowed)
    else Triple(s[0]) + Encode(s[1..], skip, allowed)
  }

  function Decode(s: Bytes, spaceAsPlus: bool): Bytes {
    if s == [] then []
    else if TripleAt(s) then [HexPairValue(s[1], s[2]) as byte] + Decode(s[3..], spaceAsPlus)
    else [DecodeOne(s[0], spaceAsPlus)] + Decode(s[1..], spaceAsPlus)
  }

  function DecodeOne(c: byte, spaceAsPlus: bool): byte {
    if c == PERCENT then QUESTION else if c == PLUS && spaceAsPlus then SPACE else c
  }

  // ---------- the loops ----------

  lemma EncodeAt(s: Bytes, i: nat, skip: bool, allowed: Bytes)
    requires i < |s|
    ensures Encode(s[i..], skip, allowed) ==
      if Kept(s[i], allowed) then [s[i]] + Encode(s[i + 1..], skip, allowed)
      else if skip && s[i] == PERCENT && i + 2 < |s| then
        if HexPairValue(s[i + 1], s[i + 2]) >= 0
        then [s[i], s[i + 1], s[i + 2]] + Encode(s[i + 3..], skip, allowed)
        else Encode(s[i + 1..], skip, allowed)
      else Triple(s[i]) + Encode(s[i + 1..], skip, allowed)
  {
    var t := s[i..];
    assert t[1..] == s[i + 1..];
    if |t| > 2 {
      assert t[..3] == [s[i], s[i + 1], s[i + 2]] && t[3..] == s[i + 3..];
    }
    hide Kept, Triple, HexPairValue;
  }

  lemma EncodeStep(done: Bytes, s: Bytes, i: nat, skip: bool, allowed: Bytes)
    requires i < |s|
    ensures done + Encode(s[i..], skip, allowed) ==
      if Kept(s[i], allowed) then done + [s[i]] + Encode(s[i + 1..], skip, allowed)
      else if skip && s[i] == PERCENT && i + 2 < |s| then
        if HexPairValue(s[i + 1], s[i + 2]) >= 0
        then done + [s[i], s[i + 1], s[i + 2]] + Encode(s[i + 3..], skip, allowed)
        else done + Encode(s[i + 1..], skip, allowed)
      else done + Triple(s[i]) + Encode(s[i + 1..], skip, allowed)
  {
    hide Encode, Kept, Triple, HexPairValue;
    EncodeAt(s, i, skip, allowed);
    Reassociate(done, [s[i]], Encode(s[i + 1..], skip, allowed));
    Reassociate(done, Triple(s[i]), Encode(s[i + 1..], skip, allowed));
    if i + 2 < |s| {
      Reassociate(done, [s[i], s[i + 1], s[i + 2]], Encode(s[i + 3..], skip, allowed));
    }
  }

  lemma DecodeAt(s: Bytes, i: nat, spaceAsPlus: bool)
    requires i < |s|
    ensures Decode(s[i..], spaceAsPlus) ==
      if s[i] == PERCENT && i + 2 < |s| && HexPairValue(s[i + 1], s[i + 2]) >= 0
      then [HexPairValue(s[i + 1], s[i + 2]) as byte] + Decode(s[i + 3..], spaceAsPlus)
      else [DecodeOne(s[i], spaceAsPlus)] + Decode(s[i + 1..], spaceAsPlus)
  {
    var t := s[i..];
    assert t[1..] == s[i + 1..];
    if |t| > 2 {
      assert t[3..] == s[i + 3..];
    }
    hide HexPairValue;
  }

  /** Decoding from i on, behind what has been decoded: one byte, for a triple or for a single character. */
  lemma DecodeStep(done: Bytes, s: Bytes, i: nat, spaceAsPlus: bool)
    requires i < |s|
    ensures done + Decode(s[i..], spaceAsPlus) ==
      if s[i] == PERCENT && i + 2 < |s| && HexPairValue(s[i + 1], s[i + 2]) >= 0
      then done + [HexPairValue(s[i + 1], s[i + 2]) as byte] + Decode(s[i + 3..], spaceAsPlus)
      else done + [DecodeOne(s[i], spaceAsPlus)] + Decode(s[i + 1..], spaceAsPlus)
  {
    hide Decode, HexPairValue, DecodeOne;
    DecodeAt(s, i, spaceAsPlus);
    Reassociate(done, [DecodeOne(s[i], spaceAsPlus)], Decode(s[i + 1..], spaceAsPlus));
    if i + 2 < |s| && HexPairValue(s[i + 1], s[i + 2]) >= 0 {
      Reassociate(done, [HexPairValue(s[i + 1], s[i + 2]) as byte], Decode(s[i + 3..], spaceAsPlus));
    }
  }

  lemma Reassociate(a: Bytes, b: Bytes, c: Bytes)
    ensures a + (b + c) == (a + b) + c
  {
  }

  /** The length is kept in an unsigned int: of a longer string only a part is looked at. */
  function Seen(url: Bytes): (s: Bytes)
    ensures |s| < 0x1_0000_0000 && (|url| < 0x1_0000_0000 ==> s == url)
  {
    url[..|url| % 0x1_0000_0000]
  }

  /** The element of a std::string: behind the last one there is a zero. */
  function ByteAt(url: Bytes, i: uint32): byte
    requires i as nat <= |url|
  {
    if i as nat < |url| then url[i] else 0
  }

  /** The sum of unsigned ints. */
  function Plus(i: uint32, k: nat): uint32 {
    ((i as nat + k) % 0x1_0000_0000) as uint32
  }

  /** With the largest length i + 2 wraps to the first byte, if the last byte is a percent sign. */
  predicate Wraps(url: Bytes) {
    |Seen(url)| == 0xFFFF_FFFF && url[0xFFFF_FFFE] == PERCENT
  }

  /** Then the byte behind the part that is looked at and the first byte are taken for digits. */
  predicate Endless(url: Bytes) {
    Wraps(url) && HexPairValue(ByteAt(url, 0xFFFF_FFFF), url[0]) >= 0
  }

  /** The percent sign at i is followed by two digits, as the loops see it. */
  predicate ReadsPair(url: Bytes, i: uint32)
    requires i as nat < |Seen(url)|
  {
    && url[i] == PERCENT && Plus(i, 2) as nat < |Seen(url)|
    && HexPairValue(ByteAt(url, Plus(i, 1)), ByteAt(url, Plus(i, 2))) >= 0
  }

  /** The index after some rounds of a loop that jumps over pairs. */
  function IndexAfter(url: Bytes, rounds: nat): uint32 {
    if rounds == 0 then 0
    else
      var i := IndexAfter(url, rounds - 1);
      if i as nat < |Seen(url)| && ReadsPair(url, i) then Plus(i, 3) else Plus(i, 1)
  }

  lemma NextIndex(url: Bytes, rounds: nat)
    ensures var i := IndexAfter(url, rounds);
      IndexAfter(url, rounds + 1) ==
        if i as nat < |Seen(url)| && ReadsPair(url, i) then Plus(Plus(i, 2), 1) else Plus(i, 1)
  {
    PlusTwice(IndexAfter(url, rounds));
    hide Plus, ReadsPair, Seen;
  }

  lemma PlusTwice(i: uint32)
    ensures Plus(Plus(i, 2), 1) == Plus(i, 3)
  {
  }

  ghost predicate NeverEnds(url: Bytes) {
    forall rounds: nat :: IndexAfter(url, rounds) as nat < |Seen(url)|
  }

  /** Where nothing wraps, the bytes that the loops look at are those of the specification. */
  lemma PairIs(url: Bytes, i: uint32)
    requires i as nat < |Seen(url)|
    ensures var s, k := Seen(url), i as nat;
      && Plus(i, 1) as nat == k + 1 && url[i] == s[k]
      && (k + 2 < |s| ==>
           Plus(i, 2) as nat == k + 2 && Plus(Plus(i, 2), 1) as nat == k + 3 &&
           ByteAt(url, Plus(i, 1)) == s[k + 1] && ByteAt(url, Plus(i, 2)) == s[k + 2])
      && (k + 2 >= |s| ==> (Plus(i, 2) as nat < |s| <==> |s| == 0xFFFF_FFFF && k == 0xFFFF_FFFE))
      && (k == 0xFFFF_FFFE ==> ByteAt(url, Plus(i, 1)) == ByteAt(url, 0xFFFF_FFFF) && Plus(i, 2) == 0)
  {
    assert |url| >= |Seen(url)| && forall j :: 0 <= j < |Seen(url)| ==> Seen(url)[j] == url[j];
  }

  /** A pair ends in front of a percent sign in the last place. */
  lemma PairEnds(url: Bytes, i: uint32)
    requires Wraps(url) && i as nat + 2 < |Seen(url)| && ReadsPair(url, i)
    ensures i as nat + 3 < |Seen(url)|
  {
    PairIs(url, i);
  }

  /** If the wrapped pair is one, the loop starts again behind the first byte, and never ends. */
  lemma {:induction false} EndlessNeverEnds(url: Bytes, rounds: nat)
    requires Endless(url)
    ensures IndexAfter(url, rounds) as nat < |Seen(url)|
  {
    if rounds > 0 {
      var i := IndexAfter(url, rounds - 1);
      EndlessNeverEnds(url, rounds - 1);
      EndlessStep(url, i);
    }
  }

  /** Otherwise the index grows with every round. */
  lemma {:induction false} IndexGrows(url: Bytes, rounds: nat)
    requires !Endless(url) && NeverEnds(url)
    ensures rounds <= IndexAfter(url, rounds) as nat
  {
    hide Endless, Seen, Plus, ReadsPair;
    if rounds > 0 {
      IndexGrows(url, rounds - 1);
      StepGrows(url, IndexAfter(url, rounds - 1));
    }
  }

  lemma StepGrows(url: Bytes, i: uint32)
    requires !Endless(url) && i as nat < |Seen(url)|
    ensures i < if ReadsPair(url, i) then Plus(i, 3) else Plus(i, 1)
  {
    hide HexPairValue;
    PairIs(url, i);
  }

  /** The loops end for every string but those. */
  lemma EndsExactly(url: Bytes)
    ensures Endless(url) <==> NeverEnds(url)
  {
    hide Endless, IndexAfter;
    if Endless(url) {
      forall rounds: nat
        ensures IndexAfter(url, rounds) as nat < |Seen(url)|
      {
        EndlessNeverEnds(url, rounds);
      }
    } else if NeverEnds(url) {
      IndexGrows(url, |Seen(url)|);
    }
  }

  lemma EndlessStep(url: Bytes, i: uint32)
    requires Endless(url) && i as nat < |Seen(url)|
    ensures (if ReadsPair(url, i) then Plus(i, 3) else Plus(i, 1)) as nat < |Seen(url)|
  {
    PairIs(url, i);
    if i as nat + 2 < |Seen(url)| && ReadsPair(url, i) {
      PairEnds(url, i);
    }
  }

  /** A percent sign in the last place, behind which i + 2 wraps, is dropped instead of encoded. */
  predicate Drops(url: Bytes, skip: bool, allowed: Bytes) {
    skip && !Kept(PERCENT, allowed) && Wraps(url)
  }

  /** What EncodeUrl has written when it is at index i. */
  ghost predicate EncodedTo(escaped: Bytes, url: Bytes, i: uint32, skip: bool, allowed: Bytes) {
    && i as nat <= |Seen(url)|
    && escaped + (if i as nat == |Seen(url)| && Drops(url, skip, allowed) then Triple(PERCENT)
                  else Encode(Seen(url)[i..], skip, allowed))
       == Encode(Seen(url), skip, allowed)
  }

  method EncodeUrl(url: Bytes, skipPercentSequence: bool, allowedChars: Bytes, valueAllowedChars: Bytes)
    returns (escaped: Bytes)
    requires Drops(url, skipPercentSequence, valueAllowedChars + allowedChars) ==> !Endless(url)
    ensures var allowed := valueAllowedChars + allowedChars;
      Encode(Seen(url), skipPercentSequence, allowed) ==
        escaped + (if Drops(url, skipPercentSequence, allowed) then Triple(PERCENT) else [])
  {
    escaped := [];
    var i: uint32, n: uint32 := 0, (|url| % 0x1_0000_0000) as uint32;
    ghost var allowed := valueAllowedChars + allowedChars;
    hide Encode, HexPairValue, EncodedTo, Seen, Plus, Endless, ByteAt, Kept, Alnum, Triple, Drops;
    EncodeStart(url, skipPercentSequence, allowed);
    SeenLength(url);
    while i < n
      invariant i <= n && EncodedTo(escaped, url, i, skipPercentSequence, allowed)
    {
      EncodeTurn(escaped, url, i, skipPercentSequence, allowed);
      var c := url[i];
      if Alnum(c) || c in valueAllowedChars || c in allowedChars {
        KeptIs(c, valueAllowedChars, allowedChars);
        escaped := escaped + [c];
      } else if skipPercentSequence && c == PERCENT && Plus(i, 2) < n {
        KeptIs(c, valueAllowedChars, allowedChars);
        var value := HexPairValue(ByteAt(url, Plus(i, 1)), ByteAt(url, Plus(i, 2)));
        if value >= 0 {
          escaped := escaped + [c, ByteAt(url, Plus(i, 1)), ByteAt(url, Plus(i, 2))];
          i := Plus(i, 2);
        }
      } else {
        KeptIs(c, valueAllowedChars, allowedChars);
        escaped := escaped + Triple(c);
      }
      i := Plus(i, 1);
    }
    EncodeEnd(escaped, url, i, skipPercentSequence, allowed);
  }

  lemma KeptIs(c: byte, valueAllowedChars: Bytes, allowedChars: Bytes)
    ensures Kept(c, valueAllowedChars + allowedChars) <==> Alnum(c) || c in valueAllowedChars || c in allowedChars
  {
  }

  lemma SeenLength(url: Bytes)
    ensures |Seen(url)| == |url| % 0x1_0000_0000 <= |url|
  {
  }

  lemma EncodeStart(url: Bytes, skip: bool, allowed: Bytes)
    ensures EncodedTo([], url, 0, skip, allowed)
  {
    assert Seen(url)[0..] == Seen(url);
    hide Encode;
    assert [] + Encode(Seen(url), skip, allowed) == Encode(Seen(url), skip, allowed);
  }

  lemma EncodeEnd(escaped: Bytes, url: Bytes, i: uint32, skip: bool, allowed: Bytes)
    requires i as nat == |Seen(url)| && EncodedTo(escaped, url, i, skip, allowed)
    ensures Encode(Seen(url), skip, allowed) == escaped + (if Drops(url, skip, allowed) then Triple(PERCENT) else [])
  {
    hide Triple, Kept;
    EncodeNothing(escaped, Seen(url)[i..], skip, allowed);
    assert escaped + [] == escaped;
  }

  lemma EncodeNothing(done: Bytes, s: Bytes, skip: bool, allowed: Bytes)
    requires s == []
    ensures done + Encode(s, skip, allowed) == done
  {
  }

  /** One round of the loop, by its branches. */
  ghost predicate EncodesOne(escaped: Bytes, url: Bytes, i: uint32, skip: bool, allowed: Bytes)
    requires i as nat < |Seen(url)|
  {
    var c, i1 := url[i], Plus(i, 1);
    if Kept(c, allowed) then EncodedTo(escaped + [c], url, i1, skip, allowed)
    else if skip && c == PERCENT && Plus(i, 2) as nat < |Seen(url)| then
      var b1, b2 := ByteAt(url, i1), ByteAt(url, Plus(i, 2));
      if HexPairValue(b1, b2) >= 0
      then i < Plus(Plus(i, 2), 1) && EncodedTo(escaped + [c, b1, b2], url, Plus(Plus(i, 2), 1), skip, allowed)
      else EncodedTo(escaped, url, i1, skip, allowed)
    else EncodedTo(escaped + Triple(c), url, i1, skip, allowed)
  }

  lemma EncodeTurn(escaped: Bytes, url: Bytes, i: uint32, skip: bool, allowed: Bytes)
    requires i as nat < |Seen(url)| && EncodedTo(escaped, url, i, skip, allowed)
    requires Drops(url, skip, allowed) ==> !Endless(url)
    ensures i < Plus(i, 1) && EncodesOne(escaped, url, i, skip, allowed)
  {
    hide *;
    if Drops(url, skip, allowed) && i as nat == |Seen(url)| - 1 {
      EncodeLast(escaped, url, i, skip, allowed);
    } else {
      EncodeInside(escaped, url, i, skip, allowed);
    }
  }

  /** The percent sign in the last place, behind which the index wraps. */
  lemma EncodeLast(escaped: Bytes, url: Bytes, i: uint32, skip: bool, allowed: Bytes)
    requires Drops(url, skip, allowed) && !Endless(url)
    requires i as nat == |Seen(url)| - 1 && EncodedTo(escaped, url, i, skip, allowed)
    ensures i < Plus(i, 1) && EncodesOne(escaped, url, i, skip, allowed)
  {
    hide Encode, HexPairValue, Kept, Triple, Plus;
    PairIs(url, i);
    EncodeStep(escaped, Seen(url), i as nat, skip, allowed);
    EncodeNothing(escaped + Triple(PERCENT), Seen(url)[i as nat + 1..], skip, allowed);
  }

  lemma EncodeInside(escaped: Bytes, url: Bytes, i: uint32, skip: bool, allowed: Bytes)
    requires i as nat < |Seen(url)| && EncodedTo(escaped, url, i, skip, allowed)
    requires !(Drops(url, skip, allowed) && i as nat == |Seen(url)| - 1)
    ensures i < Plus(i, 1) && EncodesOne(escaped, url, i, skip, allowed)
  {
    hide Encode, HexPairValue, Kept, Triple, Plus, ByteAt;
    PairIs(url, i);
    EncodeStep(escaped, Seen(url), i as nat, skip, allowed);
    if Drops(url, skip, allowed) && i as nat + 2 < |Seen(url)| && ReadsPair(url, i) {
      PairEnds(url, i);
    }
  }

  method DecodeUrl(url: Bytes, spaceAsPlus: bool) returns (result: Bytes)
    requires !Endless(url)
    ensures result == Decode(Seen(url), spaceAsPlus)
  {
    result := [];
    var i: uint32, n: uint32 := 0, (|url| % 0x1_0000_0000) as uint32;
    hide Decode, HexPairValue, DecodedTo, Seen, Plus, Endless, ByteAt, IndexAfter;
    DecodeStart(url, spaceAsPlus);
    SeenLength(url);
    ghost var rounds := 0;
    while i < n
      invariant i <= n && DecodedTo(result, url, i, spaceAsPlus)
      invariant i == IndexAfter(url, rounds)
    {
      NextIndex(url, rounds);
      rounds := rounds + 1;
      DecodeTurn(result, url, i, spaceAsPlus);
      var c := url[i];
      if c == PLUS {
        result := result + [if spaceAsPlus then SPACE else c];
      } else if c == PERCENT {
        if Plus(i, 2) < n {
          var value := HexPairValue(ByteAt(url, Plus(i, 1)), ByteAt(url, Plus(i, 2)));
          if value >= 0 {
            result := result + [value as byte];
            i := Plus(i, 2);
          } else {
            result := result + [QUESTION];
          }
        } else {
          result := result + [QUESTION];
        }
      } else {
        result := result + [c];
      }
      i := Plus(i, 1);
    }
    DecodeEnd(result, url, i, spaceAsPlus);
  }

  /** What DecodeUrl has written when it is at index i. */
  ghost predicate DecodedTo(result: Bytes, url: Bytes, i: uint32, spaceAsPlus: bool) {
    && i as nat <= |Seen(url)|
    && result + Decode(Seen(url)[i..], spaceAsPlus) == Decode(Seen(url), spaceAsPlus)
  }

  lemma DecodeStart(url: Bytes, spaceAsPlus: bool)
    ensures DecodedTo([], url, 0, spaceAsPlus)
  {
    assert Seen(url)[0..] == Seen(url);
    hide Decode;
    assert [] + Decode(Seen(url), spaceAsPlus) == Decode(Seen(url), spaceAsPlus);
  }

  lemma DecodeEnd(result: Bytes, url: Bytes, i: uint32, spaceAsPlus: bool)
    requires i as nat == |Seen(url)| && DecodedTo(result, url, i, spaceAsPlus)
    ensures result == Decode(Seen(url), spaceAsPlus)
  {
    assert Seen(url)[i..] == [] && result + [] == result;
  }

  lemma DecodeTurn(result: Bytes, url: Bytes, i: uint32, spaceAsPlus: bool)
    requires i as nat < |Seen(url)| && DecodedTo(result, url, i, spaceAsPlus) && !Endless(url)
    ensures i < Plus(i, 1)
    ensures
      if ReadsPair(url, i) then
        var value := HexPairValue(ByteAt(url, Plus(i, 1)), ByteAt(url, Plus(i, 2)));
        i < Plus(Plus(i, 2), 1) && DecodedTo(result + [value as byte], url, Plus(Plus(i, 2), 1), spaceAsPlus)
      else DecodedTo(result + [DecodeOne(url[i], spaceAsPlus)], url, Plus(i, 1), spaceAsPlus)
  {
    hide Decode, HexPairValue, DecodeOne;
    PairIs(url, i);
    DecodeStep(result, Seen(url), i as nat, spaceAsPlus);
  }

  // ---------- which characters are meant ----------

  const UPPER_DIGITS := "0123456789ABCDEF"
  const LOWER_DIGITS := "0123456789abcdef"

  /** The sixteen digits in both cases have their values, and no other character has one. */
  lemma HexDigits(c: byte, v: nat)
    requires v < 16
    ensures UpperHexDigit(v) as int == UPPER_DIGITS[v] as int
    ensures HexValue(c) == v <==> c as int == UPPER_DIGITS[v] as int || c as int == LOWER_DIGITS[v] as int
  {
  }

  predicate LetterOrDigit(c: byte) {
    || 'a' as int <= c as int <= 'z' as int || 'A' as int <= c as int <= 'Z' as int
    || '0' as int <= c as int <= '9' as int
  }

  /**
   Letters, digits and the allowed characters stand for themselves; any other is written
   as a percent sign and its value in two upper-case digits.
   */
  lemma EncodeTells(c: byte, t: Bytes, allowed: Bytes)
    ensures Encode([c] + t, false, allowed) ==
      if LetterOrDigit(c) || c in allowed then [c] + Encode(t, false, allowed)
      else
        ['%' as int as byte, UPPER_DIGITS[c / 16] as int as byte, UPPER_DIGITS[c % 16] as int as byte]
        + Encode(t, false, allowed)
  {
    HexDigits(c, c as nat / 16);
    HexDigits(c, c as nat % 16);
    hide UpperHexDigit, HexValue;
    assert ([c] + t)[0] == c && ([c] + t)[1..] == t;
  }

  /** In skip mode a percent sign is kept with two digits behind it, encoded near the end, and else dropped. */
  lemma SkipTells(t: Bytes, allowed: Bytes)
    requires '%' as int as byte !in allowed
    ensures var s := ['%' as int as byte] + t;
      Encode(s, true, allowed) ==
        if |t| < 2 then ['%' as int as byte, '2' as int as byte, '5' as int as byte] + Encode(t, true, allowed)
        else if HexValue(t[0]) >= 0 && HexValue(t[1]) >= 0
        then ['%' as int as byte, t[0], t[1]] + Encode(t[2..], true, allowed)
        else Encode(t, true, allowed)
  {
    hide HexValue;
    var s := ['%' as int as byte] + t;
    assert s[1..] == t;
    if |t| >= 2 {
      assert s[..3] == ['%' as int as byte, t[0], t[1]] && s[3..] == t[2..];
    }
  }

  /** Without a percent sign nothing but plus signs changes, and those to spaces if they are read so. */
  lemma {:induction false} DecodePlain(s: Bytes, spaceAsPlus: bool)
    requires '%' as int as byte !in s
    ensures |Decode(s, spaceAsPlus)| == |s|
    ensures forall i :: 0 <= i < |s| ==>
      Decode(s, spaceAsPlus)[i] == if s[i] as int == '+' as int && spaceAsPlus then ' ' as int as byte else s[i]
  {
    if s != [] {
      DecodePlain(s[1..], spaceAsPlus);
      assert s[0] in s && forall i :: 1 <= i < |s| ==> s[i] == s[1..][i - 1];
    }
  }

  /** A percent sign and two digits are one byte; any other percent sign is read as a question mark. */
  lemma DecodePercent(t: Bytes, spaceAsPlus: bool)
    ensures var s := ['%' as int as byte] + t;
      Decode(s, spaceAsPlus) ==
        if |t| >= 2 && HexValue(t[0]) >= 0 && HexValue(t[1]) >= 0
        then [(HexValue(t[0]) * 16 + HexValue(t[1])) as byte] + Decode(t[2..], spaceAsPlus)
        else ['?' as int as byte] + Decode(t, spaceAsPlus)
  {
    hide HexValue;
    var s := ['%' as int as byte] + t;
    assert s[1..] == t && (|t| >= 2 ==> s[3..] == t[2..] && s[1] == t[0] && s[2] == t[1]);
  }

  // ---------- decoding what was encoded ----------

  /** A triple denotes its character, and its digits are upper-case. */
  lemma TripleDecodes(c: byte)
    ensures HexPairValue(Triple(c)[1], Triple(c)[2]) == c as int
    ensures Triple(c)[1] < 97 && Triple(c)[2] < 97
  {
  }

  function UpperCase(c: byte): byte {
    if 97 <= c <= 102 then c - 32 else c
  }

  /** The value of two digits, written as a triple, gives the same two digits, in upper case. */
  lemma HexPairIsTriple(c1: byte, c2: byte)
    requires HexPairValue(c1, c2) >= 0
    ensures Triple(HexPairValue(c1, c2) as byte) == [PERCENT, UpperCase(c1), UpperCase(c2)]
  {
  }

  /** Encoding makes a string at most three times as long; decoding never makes it longer. */
  lemma {:induction false} EncodeLength(s: Bytes, skip: bool, allowed: Bytes)
    ensures |Encode(s, skip, allowed)| <= 3 * |s|
  {
    if s != [] {
      EncodeLength(s[1..], skip, allowed);
      if TripleAt(s) {
        EncodeLength(s[3..], skip, allowed);
      }
    }
  }

  /** Nothing is encoded without need: a string stays as it is exactly when all its characters are kept. */
  lemma {:induction false} OnlyNeededIsEncoded(s: Bytes, allowed: Bytes)
    ensures |Encode(s, false, allowed)| >= |s|
    ensures Encode(s, false, allowed) == s <==> forall c :: c in s ==> Kept(c, allowed)
  {
    if s != [] {
      OnlyNeededIsEncoded(s[1..], allowed);
      var t := Encode(s[1..], false, allowed);
      assert s == [s[0]] + s[1..];
      if Kept(s[0], allowed) {
        assert ([s[0]] + t)[1..] == t;
      }
    }
  }

  lemma DecodeTriple(c: byte, t: Bytes, spaceAsPlus: bool)
    ensures Decode(Triple(c) + t, spaceAsPlus) == [c] + Decode(t, spaceAsPlus)
  {
    TripleDecodes(c);
    assert (Triple(c) + t)[3..] == t;
  }

  lemma DecodeKept(c: byte, t: Bytes, spaceAsPlus: bool)
    requires c != PERCENT
    ensures Decode([c] + t, spaceAsPlus) == [DecodeOne(c, spaceAsPlus)] + Decode(t, spaceAsPlus)
  {
    assert ([c] + t)[1..] == t;
  }

  /** A percent sign that is left alone: what follows may make it a triple by accident. */
  lemma {:induction false} DecodeBarePercent(s: Bytes, allowed: Bytes, spaceAsPlus: bool)
    requires s != [] && s[0] == PERCENT && Kept(PERCENT, allowed)
    ensures Decode(Encode(s, false, allowed), spaceAsPlus) != s
  {
    var t := Encode(s[1..], false, allowed);
    assert ([PERCENT] + t)[1..] == t;
    if TripleAt([PERCENT] + t) {
      var u := s[1..];
      FirstHex(u, t, allowed);
      var t' := Encode(u[1..], false, allowed);
      assert t[1..] == t';
      FirstHex(u[1..], t', allowed);
      assert u[1..][1..] == s[3..] && t'[1..] == ([PERCENT] + t)[3..];
      EncodeDecodeLength(s[3..], allowed, spaceAsPlus);
    }
  }

  lemma FirstHex(u: Bytes, t: Bytes, allowed: Bytes)
    requires t == Encode(u, false, allowed) && t != [] && HexValue(t[0]) >= 0
    ensures u != [] && t == [u[0]] + Encode(u[1..], false, allowed)
  {
  }

  lemma {:induction false} EncodeDecodeLength(s: Bytes, allowed: Bytes, spaceAsPlus: bool)
    ensures |Decode(Encode(s, false, allowed), spaceAsPlus)| <= |s|
  {
    if s != [] {
      var t := Encode(s[1..], false, allowed);
      EncodeDecodeLength(s[1..], allowed, spaceAsPlus);
      if !Kept(s[0], allowed) {
        DecodeTriple(s[0], t, spaceAsPlus);
      } else if s[0] != PERCENT {
        DecodeKept(s[0], t, spaceAsPlus);
      } else if TripleAt([PERCENT] + t) {
        var u := s[1..];
        FirstHex(u, t, allowed);
        var t' := Encode(u[1..], false, allowed);
        assert t[1..] == t';
        FirstHex(u[1..], t', allowed);
        assert u[1..][1..] == s[3..] && t'[1..] == ([PERCENT] + t)[3..];
        EncodeDecodeLength(s[3..], allowed, spaceAsPlus);
      } else {
        assert ([PERCENT] + t)[1..] == t;
      }
    }
  }

  /** A character that does not survive: a bare percent sign, or a plus that is read as a space. */
  predicate Lost(c: byte, allowed: Bytes, spaceAsPlus: bool) {
    c in allowed && (c == PERCENT || (c == PLUS && spaceAsPlus))
  }

  /** Decoding undoes encoding exactly when the string has no such character. */
  lemma {:induction false} RoundTrip(s: Bytes, allowed: Bytes, spaceAsPlus: bool)
    ensures Decode(Encode(s, false, allowed), spaceAsPlus) == s <==> forall c :: c in s ==>
      !Lost(c, allowed, spaceAsPlus)
  {
    if s != [] {
      var t := Encode(s[1..], false, allowed);
      var d := Decode(t, spaceAsPlus);
      RoundTrip(s[1..], allowed, spaceAsPlus);
      assert s == [s[0]] + s[1..];
      assert (forall c :: c in s ==> !Lost(c, allowed, spaceAsPlus)) <==>
        !Lost(s[0], allowed, spaceAsPlus) && (forall c :: c in s[1..] ==> !Lost(c, allowed, spaceAsPlus));
      if !Kept(s[0], allowed) {
        DecodeTriple(s[0], t, spaceAsPlus);
      } else if s[0] == PERCENT {
        DecodeBarePercent(s, allowed, spaceAsPlus);
      } else {
        DecodeKept(s[0], t, spaceAsPlus);
      }
      assert forall x: byte :: [x] + d == s <==> x == s[0] && d == s[1..];
    }
  }

  /** With allowed sets that lack '%' and '+', the round trip holds for every string and both readings of '+'. */
  lemma RoundTripAlways(s: Bytes, allowed: Bytes, spaceAsPlus: bool)
    requires PERCENT !in allowed && PLUS !in allowed
    ensures Decode(Encode(s, false, allowed), spaceAsPlus) == s
  {
    RoundTrip(s, allowed, spaceAsPlus);
  }

  /**
   What EncodeUrl and DecodeUrl return for a string whose encoding cannot be too long for
   an unsigned int: nothing wraps and nothing is cut off on the way, so the round trip
   holds for the same strings.
   */
  lemma MethodsRoundTrip(url: Bytes, allowed: Bytes, spaceAsPlus: bool)
    requires 3 * |url| < 0xFFFF_FFFF
    ensures var escaped := Encode(Seen(url), false, allowed);
      && !Wraps(url) && !Wraps(escaped)
      && (Decode(Seen(escaped), spaceAsPlus) == url <==> forall c :: c in url ==> !Lost(c, allowed, spaceAsPlus))
  {
    hide Encode, Decode;
    EncodeLength(url, false, allowed);
    RoundTrip(url, allowed, spaceAsPlus);
  }

  // ---------- skipping percent sequences ----------

  /** A sequence of characters that are kept and of triples. */
  predicate Encoded(t: Bytes, allowed: Bytes) {
    t == [] || (Kept(t[0], allowed) && Encoded(t[1..], allowed)) || (TripleAt(t) && Encoded(t[3..], allowed))
  }

  lemma {:induction false} EncodeIsEncoded(s: Bytes, skip: bool, allowed: Bytes)
    ensures Encoded(Encode(s, skip, allowed), allowed)
  {
    if s != [] {
      EncodeIsEncoded(s[1..], skip, allowed);
      var t := Encode(s[1..], skip, allowed);
      if Kept(s[0], allowed) {
        assert ([s[0]] + t)[1..] == t;
      } else if skip && TripleAt(s) {
        EncodeIsEncoded(s[3..], skip, allowed);
        assert (s[..3] + Encode(s[3..], skip, allowed))[3..] == Encode(s[3..], skip, allowed);
      } else {
        TripleDecodes(s[0]);
        assert (Triple(s[0]) + t)[3..] == t;
      }
    }
  }

  lemma {:induction false} EncodedIsFixed(t: Bytes, allowed: Bytes)
    requires Encoded(t, allowed)
    ensures Encode(t, true, allowed) == t
  {
    if t != [] {
      if Kept(t[0], allowed) {
        if TripleAt(t) && Encoded(t[3..], allowed) {
          KeptTriple(t, allowed);
        }
        EncodedIsFixed(t[1..], allowed);
      } else {
        EncodedIsFixed(t[3..], allowed);
      }
    }
  }

  /** The digits of a triple are kept, so a triple whose percent sign is kept is also a run of kept characters. */
  lemma KeptTriple(t: Bytes, allowed: Bytes)
    requires TripleAt(t) && Encoded(t[3..], allowed)
    ensures Encoded(t[1..], allowed)
  {
    assert t[1..][1..][1..] == t[3..];
    assert Encoded(t[1..][1..], allowed);
  }

  /** What skip mode leaves unchanged is exactly what consists of kept characters and triples. */
  lemma FixedPoints(t: Bytes, allowed: Bytes)
    ensures Encode(t, true, allowed) == t <==> Encoded(t, allowed)
  {
    EncodeIsEncoded(t, true, allowed);
    if Encoded(t, allowed) {
      EncodedIsFixed(t, allowed);
    }
  }

  /** Skip mode is idempotent, and leaves any output of either mode unchanged. */
  lemma SkipModeIsIdempotent(s: Bytes, skip: bool, allowed: Bytes)
    ensures Encode(Encode(s, skip, allowed), true, allowed) == Encode(s, skip, allowed)
  {
    EncodeIsEncoded(s, skip, allowed);
    FixedPoints(Encode(s, skip, allowed), allowed);
  }

  /** The percent sign at i starts a triple. */
  predicate TripleFrom(s: Bytes, i: nat)
    requires i < |s|
  {
    TripleAt(s[i..])
  }

  /** No plus sign is encoded that a decoder would read as a space. */
  predicate PlusKept(s: Bytes, allowed: Bytes, spaceAsPlus: bool) {
    spaceAsPlus && PLUS in s ==> PLUS in allowed
  }

  /** In addition every percent sign starts a triple. */
  ghost predicate Clean(s: Bytes, allowed: Bytes, spaceAsPlus: bool) {
    && (forall i :: 0 <= i < |s| && s[i] == PERCENT ==> TripleFrom(s, i))
    && PlusKept(s, allowed, spaceAsPlus)
  }

  lemma CleanStep(s: Bytes, n: nat, allowed: Bytes, spaceAsPlus: bool)
    requires 0 < n <= |s| && (s[0] == PERCENT ==> TripleAt(s)) && (forall i :: 0 < i < n ==>
      s[i] != PERCENT && s[i] != PLUS)
    ensures Clean(s, allowed, spaceAsPlus) <==>
      !(spaceAsPlus && s[0] == PLUS && PLUS !in allowed) && Clean(s[n..], allowed, spaceAsPlus)
  {
    assert s[0..] == s;
    forall i | n <= i < |s|
      ensures s[i..] == s[n..][i - n..]
    {
    }
    assert forall j :: 0 <= j < |s| - n ==> s[n..][j] == s[n + j] && TripleFrom(s[n..], j) == TripleFrom(s, n + j);
    assert s == s[..n] + s[n..];
  }

  /** If percent signs are left alone there is nothing to skip. */
  lemma {:induction false} SkipModeIsNormal(s: Bytes, allowed: Bytes)
    requires PERCENT in allowed
    ensures Encode(s, true, allowed) == Encode(s, false, allowed)
  {
    if s != [] {
      SkipModeIsNormal(s[1..], allowed);
    }
  }

  lemma TripleIsKept(s: Bytes, allowed: Bytes)
    requires TripleAt(s) && PERCENT in allowed
    ensures var t := Encode(s, false, allowed); TripleAt(t) && t == s[..3] + Encode(s[3..], false, allowed)
  {
    var u, v, w := s[1..], s[2..], s[3..];
    assert u[1..] == v && v[1..] == w;
    var x := Encode(w, false, allowed);
    assert Encode(v, false, allowed) == [s[2]] + x;
    assert Encode(u, false, allowed) == [s[1]] + ([s[2]] + x);
    assert s[..3] + x == [PERCENT] + ([s[1]] + ([s[2]] + x));
  }

  lemma TripleWasThere(s: Bytes, allowed: Bytes)
    requires s != [] && s[0] == PERCENT && PERCENT in allowed && TripleAt(Encode(s, false, allowed))
    ensures TripleAt(s)
  {
    var u := s[1..];
    var t := Encode(u, false, allowed);
    var whole := [PERCENT] + t;
    assert whole[1] == t[0] && whole[2] == t[1];
    FirstHex(u, t, allowed);
    var t' := Encode(u[1..], false, allowed);
    assert t[1..] == t';
    FirstHex(u[1..], t', allowed);
  }

  /** Encoding what follows a percent sign that is left alone neither makes a triple nor breaks one. */
  lemma TripleStays(s: Bytes, allowed: Bytes)
    requires s != [] && s[0] == PERCENT && PERCENT in allowed
    ensures var t := Encode(s, false, allowed);
      && TripleAt(t) == TripleAt(s) && t == [PERCENT] + Encode(s[1..], false, allowed)
      && (TripleAt(s) ==> t == s[..3] + Encode(s[3..], false, allowed))
  {
    if TripleAt(s) {
      TripleIsKept(s, allowed);
    }
    if TripleAt(Encode(s, false, allowed)) {
      TripleWasThere(s, allowed);
    }
  }

  lemma {:induction false} KeptPercentDecodes(s: Bytes, allowed: Bytes, spaceAsPlus: bool)
    requires PERCENT in allowed
    ensures Decode(Encode(s, false, allowed), spaceAsPlus) == Decode(s, spaceAsPlus) <==>
      PlusKept(s, allowed, spaceAsPlus)
  {
    if s != [] {
      var e, d := Encode(s[1..], false, allowed), Decode(s[1..], spaceAsPlus);
      KeptPercentDecodes(s[1..], allowed, spaceAsPlus);
      PlusStep(s, 1, allowed, spaceAsPlus);
      var x := DecodeOne(s[0], spaceAsPlus);
      if s[0] == PERCENT {
        TripleStays(s, allowed);
        var t := Encode(s, false, allowed);
        if TripleAt(s) {
          KeptPercentDecodes(s[3..], allowed, spaceAsPlus);
          PlusStep(s, 3, allowed, spaceAsPlus);
          assert t[3..] == Encode(s[3..], false, allowed) && t[1] == s[1] && t[2] == s[2];
          var v := HexPairValue(s[1], s[2]) as byte;
          SameHead(v, Decode(t[3..], spaceAsPlus), v, Decode(s[3..], spaceAsPlus));
        } else {
          assert t[1..] == e;
          SameHead(x, Decode(e, spaceAsPlus), x, d);
        }
      } else if Kept(s[0], allowed) {
        DecodeKept(s[0], e, spaceAsPlus);
        SameHead(x, Decode(e, spaceAsPlus), x, d);
      } else {
        DecodeTriple(s[0], e, spaceAsPlus);
        SameHead(s[0], Decode(e, spaceAsPlus), x, d);
      }
    }
  }

  lemma PlusStep(s: Bytes, n: nat, allowed: Bytes, spaceAsPlus: bool)
    requires 0 < n <= |s| && (forall i :: 0 < i < n ==> s[i] != PLUS)
    ensures PlusKept(s, allowed, spaceAsPlus) <==>
      !(spaceAsPlus && s[0] == PLUS && PLUS !in allowed) && PlusKept(s[n..], allowed, spaceAsPlus)
  {
    assert s == s[..n] + s[n..];
  }

  /**
   Decoding what skip mode produced gives what decoding the original gives exactly when no
   plus sign is lost and, unless percent signs are left alone anyway, each starts a triple:
   skip mode drops one that does not, or encodes it among the last two characters.
   */
  lemma SkipModeDecodes(s: Bytes, allowed: Bytes, spaceAsPlus: bool)
    ensures Decode(Encode(s, true, allowed), spaceAsPlus) == Decode(s, spaceAsPlus) <==>
      if PERCENT in allowed then PlusKept(s, allowed, spaceAsPlus) else Clean(s, allowed, spaceAsPlus)
  {
    if PERCENT in allowed {
      SkipModeIsNormal(s, allowed);
      KeptPercentDecodes(s, allowed, spaceAsPlus);
    } else {
      SkippedPercentDecodes(s, allowed, spaceAsPlus);
    }
  }

  lemma {:induction false} SkippedPercentDecodes(s: Bytes, allowed: Bytes, spaceAsPlus: bool)
    requires PERCENT !in allowed
    ensures |Decode(Encode(s, true, allowed), spaceAsPlus)| <= |Decode(s, spaceAsPlus)|
    ensures Decode(Encode(s, true, allowed), spaceAsPlus) == Decode(s, spaceAsPlus) <==> Clean(s, allowed, spaceAsPlus)
    decreases |s|, 1
  {
    if s != [] {
      var e, d := Encode(s[1..], true, allowed), Decode(s[1..], spaceAsPlus);
      SkippedPercentDecodes(s[1..], allowed, spaceAsPlus);
      if TripleAt(s) {
        TripleSkips(s, allowed, spaceAsPlus);
      } else if s[0] == PERCENT {
        assert !TripleFrom(s, 0) by { assert s[0..] == s; }
        assert !Clean(s, allowed, spaceAsPlus);
        if |s| <= 2 {
          DecodeTriple(s[0], e, spaceAsPlus);
          SameHead(PERCENT, Decode(e, spaceAsPlus), QUESTION, d);
        }
      } else {
        CleanStep(s, 1, allowed, spaceAsPlus);
        if Kept(s[0], allowed) {
          DecodeKept(s[0], e, spaceAsPlus);
          SameHead(DecodeOne(s[0], spaceAsPlus), Decode(e, spaceAsPlus), DecodeOne(s[0], spaceAsPlus), d);
        } else {
          DecodeTriple(s[0], e, spaceAsPlus);
          assert Decode(s, spaceAsPlus) == [DecodeOne(s[0], spaceAsPlus)] + d;
          SameHead(s[0], Decode(e, spaceAsPlus), DecodeOne(s[0], spaceAsPlus), d);
        }
      }
    }
  }

  lemma SameHead(x: byte, a: Bytes, y: byte, b: Bytes)
    ensures [x] + a == [y] + b <==> x == y && a == b
  {
    assert ([x] + a)[1..] == a && ([y] + b)[1..] == b;
    assert ([x] + a)[0] == x && ([y] + b)[0] == y;
  }

  lemma {:induction false} TripleSkips(s: Bytes, allowed: Bytes, spaceAsPlus: bool)
    requires PERCENT !in allowed && TripleAt(s)
    ensures |Decode(Encode(s, true, allowed), spaceAsPlus)| <= |Decode(s, spaceAsPlus)|
    ensures Decode(Encode(s, true, allowed), spaceAsPlus) == Decode(s, spaceAsPlus) <==> Clean(s, allowed, spaceAsPlus)
    decreases |s|, 0
  {
    var e, d := Encode(s[3..], true, allowed), Decode(s[3..], spaceAsPlus);
    SkippedPercentDecodes(s[3..], allowed, spaceAsPlus);
    var t, v := s[..3] + e, HexPairValue(s[1], s[2]) as byte;
    assert t[3..] == e && t[1] == s[1] && t[2] == s[2] && TripleAt(t);
    SameHead(v, Decode(e, spaceAsPlus), v, d);
    CleanStep(s, 3, allowed, spaceAsPlus);
  }

  /** "%zz" loses its percent sign in skip mode, and "%" gains a triple. */
  lemma SkipModeChangesMalformed()
    ensures Encode([PERCENT, 122, 122], true, []) == [122, 122]
    ensures Encode([PERCENT], true, []) == [PERCENT, 50, 53]
  {
    var s: Bytes := [PERCENT, 122, 122];
    assert s[1..] == [122, 122] && s[1..][1..] == [122] && s[1..][1..][1..] == [];
    assert [122] + [] == [122];
    assert Encode(s[1..][1..], true, []) == [122];
    assert Triple(PERCENT) == [PERCENT, 50, 53];
  }

  function Ascii(s: string): (b: Bytes)
    requires forall i :: 0 <= i < |s| ==> s[i] < 128 as char
    ensures |b| == |s| && forall i :: 0 <= i < |s| ==> b[i] as int == s[i] as int
  {
    if s == "" then [] else [s[0] as int as byte] + Ascii(s[1..])
  }

  lemma AsciiLacks(s: string, c: byte)
    requires (forall i :: 0 <= i < |s| ==> s[i] < 128 as char) && c as int as char !in s
    ensures c !in Ascii(s)
  {
  }

  const DEFAULT_ALLOWED := "/?=&#"
  const DEFAULT_VALUE_ALLOWED := "-_.:[]~!$()'*,;@"

  lemma DefaultsAscii()
    ensures forall i :: 0 <= i < |DEFAULT_ALLOWED| ==> DEFAULT_ALLOWED[i] < 128 as char
    ensures forall i :: 0 <= i < |DEFAULT_VALUE_ALLOWED| ==> DEFAULT_VALUE_ALLOWED[i] < 128 as char
    ensures '%' !in DEFAULT_ALLOWED && '+' !in DEFAULT_ALLOWED
    ensures '%' !in DEFAULT_VALUE_ALLOWED && '+' !in DEFAULT_VALUE_ALLOWED
  {
  }

  function DefaultAllowed(): (b: Bytes)
    ensures PERCENT !in b && PLUS !in b
  {
    DefaultsAscii();
    AsciiLacks(DEFAULT_VALUE_ALLOWED, PERCENT);
    AsciiLacks(DEFAULT_VALUE_ALLOWED, PLUS);
    AsciiLacks(DEFAULT_ALLOWED, PERCENT);
    AsciiLacks(DEFAULT_ALLOWED, PLUS);
    Ascii(DEFAULT_VALUE_ALLOWED) + Ascii(DEFAULT_ALLOWED)
  }

  /** The default sets keep every string. */
  lemma DefaultsRoundTrip(s: Bytes, spaceAsPlus: bool)
    ensures Decode(Encode(s, false, DefaultAllowed()), spaceAsPlus) == s
  {
    RoundTripAlways(s, DefaultAllowed(), spaceAsPlus);
  }
}
