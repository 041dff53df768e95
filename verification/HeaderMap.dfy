/**
 Header names are compared without regard to case (RFC 7230, section 3.2): the ordering,
 and the ordered map of headers that rests on it.
 */
module HeaderMap {
  import opened Wrappers

  /** tolower of the C locale. */
  function Lower(c: char): char {
    if 'A' <= c <= 'Z' then (c as int + 32) as char else c
  }

  function LowerAll(s: string): (r: string)
    ensures |r| == |s| && forall i :: 0 <= i < |s| ==> r[i] == Lower(s[i])
  {
    if s == "" then "" else [Lower(s[0])] + LowerAll(s[1..])
  }

  /** ci_less: the lexicographical order of the lower-case characters. */
  predicate Less(a: string, b: string) {
    if b == "" then false
    else if a == "" then true
    else if Lower(a[0]) < Lower(b[0]) then true
    else if Lower(b[0]) < Lower(a[0]) then false
    else Less(a[1..], b[1..])
  }

  predicate Equivalent(a: string, b: string) {
    !Less(a, b) && !Less(b, a)
  }

  lemma {:induction false} LowerSame(a: string, b: string)
    ensures LowerAll(a) == LowerAll(b) <==> if a == "" || b == "" then a == b else
      Lower(a[0]) == Lower(b[0]) && LowerAll(a[1..]) == LowerAll(b[1..])
  {
    if a != "" && b != "" {
      assert LowerAll(a)[0] == Lower(a[0]) && LowerAll(a)[1..] == LowerAll(a[1..]);
      assert LowerAll(b)[0] == Lower(b[0]) && LowerAll(b)[1..] == LowerAll(b[1..]);
    }
  }

  /** Names that the order does not tell apart are those that are equal in lower case. */
  lemma {:induction false} EquivalentIsSameLower(a: string, b: string)
    ensures Equivalent(a, b) <==> LowerAll(a) == LowerAll(b)
    decreases |a|
  {
    LowerSame(a, b);
    if a != "" && b != "" {
      EquivalentIsSameLower(a[1..], b[1..]);
    }
  }

  lemma {:induction false} LessIsIrreflexive(a: string)
    ensures !Less(a, a)
    decreases |a|
  {
    if a != "" {
      LessIsIrreflexive(a[1..]);
    }
  }

  lemma {:induction false} LessIsTransitive(a: string, b: string, c: string)
    requires Less(a, b) && Less(b, c)
    ensures Less(a, c)
    decreases |a|
  {
    if a != "" && Lower(a[0]) == Lower(b[0]) == Lower(c[0]) {
      LessIsTransitive(a[1..], b[1..], c[1..]);
    }
  }

  /** The order meets the requirements of an ordered map: a strict weak order. */
  lemma LessIsStrictWeakOrder(a: string, b: string, c: string)
    ensures !Less(a, a)
    ensures Less(a, b) ==> !Less(b, a)
    ensures Less(a, b) && Less(b, c) ==> Less(a, c)
    ensures Equivalent(a, b) && Equivalent(b, c) ==> Equivalent(a, c)
  {
    LessIsIrreflexive(a);
    if Less(a, b) && Less(b, c) {
      LessIsTransitive(a, b, c);
    }
    if Less(a, b) && Less(b, a) {
      LessIsTransitive(a, b, a);
    }
    EquivalentIsSameLower(a, b);
    EquivalentIsSameLower(b, c);
    EquivalentIsSameLower(a, c);
  }

  // ---------- which characters are one ----------

  /** The same character, or the same letter in the other case. */
  predicate SameLetter(a: char, b: char) {
    || a == b || ('A' <= a <= 'Z' && b as int - 'a' as int == a as int - 'A' as int)
    || ('A' <= b <= 'Z' && a as int - 'a' as int == b as int - 'A' as int)
  }

  /** Two names are one for the order exactly when they are the same letter by letter. */
  lemma NamesMatch(a: string, b: string)
    ensures Equivalent(a, b) <==> |a| == |b| && forall i :: 0 <= i < |a| ==> SameLetter(a[i], b[i])
  {
    EquivalentIsSameLower(a, b);
    hide Equivalent, LowerAll;
    if LowerAll(a) == LowerAll(b) {
      forall i | 0 <= i < |a|
        ensures SameLetter(a[i], b[i])
      {
        assert LowerAll(a)[i] == LowerAll(b)[i];
      }
    }
  }

  /** Letters are ordered as if they were all small ones, by their codes. */
  function SmallCode(c: char): int {
    if 'A' <= c <= 'Z' then c as int - 'A' as int + 'a' as int else c as int
  }

  /** A name is less than another exactly when it is a beginning of it or smaller where they first differ. */
  lemma {:induction false} LessAtDifference(a: string, b: string, n: nat)
    requires n <= |a| && n <= |b| && forall i :: 0 <= i < n ==> SameLetter(a[i], b[i])
    requires n < |a| && n < |b| ==> !SameLetter(a[n], b[n])
    ensures Less(a, b) <==> n < |b| && (n == |a| || SmallCode(a[n]) < SmallCode(b[n]))
    decreases n
  {
    if n > 0 {
      assert SameLetter(a[0], b[0]);
      assert forall i :: 0 <= i < n - 1 ==> a[1..][i] == a[i + 1] && b[1..][i] == b[i + 1];
      LessAtDifference(a[1..], b[1..], n - 1);
    }
  }

  // ---------- the map ----------

  datatype Header = Header(name: string, value: string)

  /** The entries of the map in its order. */
  type Headers = seq<Header>

  ghost predicate Sorted(m: Headers) {
    forall i, j :: 0 <= i < j < |m| ==> Less(m[i].name, m[j].name)
  }

  function Get(m: Headers, name: string): Option<string> {
    if m == [] then None
    else if Equivalent(m[0].name, name) then Some(m[0].value)
    else Get(m[1..], name)
  }

  /** The entry of an equivalent name keeps its place and its name; a new entry goes before the first larger one. */
  function Put(m: Headers, name: string, value: string): Headers {
    if m == [] then [Header(name, value)]
    else if Less(m[0].name, name) then [m[0]] + Put(m[1..], name, value)
    else if Less(name, m[0].name) then [Header(name, value)] + m
    else [m[0].(value := value)] + m[1..]
  }

  /** What a lookup sees: one value and one spelling for each lower-case name. */
  function Meaning(m: Headers): map<string, Header> {
    if m == [] then map[] else Meaning(m[1..])[LowerAll(m[0].name) := m[0]]
  }

  function Update(names: map<string, Header>, name: string, value: string): map<string, Header> {
    var key := LowerAll(name);
    names[key := if key in names then names[key].(value := value) else Header(name, value)]
  }

  lemma {:induction false} MeaningKeys(m: Headers, key: string)
    ensures key in Meaning(m) <==> exists i :: 0 <= i < |m| && LowerAll(m[i].name) == key
  {
    if m != [] {
      MeaningKeys(m[1..], key);
      assert forall i :: 1 <= i < |m| ==> m[i] == m[1..][i - 1];
    }
  }

  lemma SortedTail(m: Headers)
    requires Sorted(m) && m != []
    ensures Sorted(m[1..]) && LowerAll(m[0].name) !in Meaning(m[1..])
  {
    hide LowerAll, Less;
    var key := LowerAll(m[0].name);
    MeaningKeys(m[1..], key);
    forall i | 0 <= i < |m[1..]|
      ensures LowerAll(m[1..][i].name) != key
    {
      HeadDiffers(m, i + 1);
    }
  }

  lemma HeadDiffers(m: Headers, i: nat)
    requires Sorted(m) && 0 < i < |m|
    ensures LowerAll(m[i].name) != LowerAll(m[0].name)
  {
    hide LowerAll, Less;
    assert Less(m[0].name, m[i].name);
    EquivalentIsSameLower(m[0].name, m[i].name);
  }

  lemma {:induction false} PutMembers(m: Headers, name: string, value: string, h: Header)
    requires h in Put(m, name, value)
    ensures h == Header(name, value) || exists i :: 0 <= i < |m| && h.name == m[i].name
  {
    if m != [] {
      if Less(m[0].name, name) && h in Put(m[1..], name, value) {
        PutMembers(m[1..], name, value, h);
        assert forall i :: 0 <= i < |m[1..]| ==> m[1..][i] == m[i + 1];
      } else if !Less(m[0].name, name) && !Less(name, m[0].name) && h != m[0].(value := value) {
        assert h in m[1..];
      }
    }
  }

  lemma SortedCons(h: Header, m: Headers)
    requires Sorted(m) && forall x :: x in m ==> Less(h.name, x.name)
    ensures Sorted([h] + m)
  {
    hide Less;
    var r := [h] + m;
    forall i, j | 0 <= i < j < |r|
      ensures Less(r[i].name, r[j].name)
    {
      if i == 0 {
        assert r[j] in m;
      } else {
        assert r[i] == m[i - 1] && r[j] == m[j - 1];
      }
    }
  }

  lemma {:induction false} PutSorted(m: Headers, name: string, value: string)
    requires Sorted(m)
    ensures Sorted(Put(m, name, value))
  {
    hide Less;
    if m == [] {
      SortedCons(Header(name, value), []);
      assert [Header(name, value)] + [] == [Header(name, value)];
    } else if Less(m[0].name, name) {
      SortedTail(m);
      PutSorted(m[1..], name, value);
      forall x | x in Put(m[1..], name, value)
        ensures Less(m[0].name, x.name)
      {
        PutMembers(m[1..], name, value, x);
        assert forall i :: 0 <= i < |m[1..]| ==> m[1..][i] == m[i + 1];
      }
      SortedCons(m[0], Put(m[1..], name, value));
    } else if Less(name, m[0].name) {
      forall x | x in m
        ensures Less(name, x.name)
      {
        var i :| 0 <= i < |m| && m[i] == x;
        if i > 0 {
          LessIsTransitive(name, m[0].name, x.name);
        }
      }
      SortedCons(Header(name, value), m);
    } else {
      var r := [m[0].(value := value)] + m[1..];
      assert forall i :: 0 <= i < |m| ==> r[i].name == m[i].name;
    }
  }

  /** In a sorted map a lookup finds the entry whose name is the same in lower case. */
  lemma {:induction false} GetIsMeaning(m: Headers, name: string)
    requires Sorted(m)
    ensures Get(m, name) ==
      if LowerAll(name) in Meaning(m) then Some(Meaning(m)[LowerAll(name)].value) else None
  {
    if m != [] {
      SortedTail(m);
      EquivalentIsSameLower(m[0].name, name);
      hide Less, LowerAll;
      GetIsMeaning(m[1..], name);
    }
  }

  /** A lookup finds the value of the one entry whose name is the asked one, and nothing if there is none. */
  lemma {:induction false} GetFinds(m: Headers, name: string)
    requires Sorted(m)
    ensures forall i :: 0 <= i < |m| && Equivalent(m[i].name, name) ==> Get(m, name) == Some(m[i].value)
    ensures (forall i :: 0 <= i < |m| ==> !Equivalent(m[i].name, name)) ==> Get(m, name) == None
    decreases |m|
  {
    hide Less, Equivalent;
    if m != [] {
      SortedTail(m);
      GetFinds(m[1..], name);
      assert forall i :: 1 <= i < |m| ==> m[i] == m[1..][i - 1];
      forall i | 0 < i < |m| && Equivalent(m[i].name, name) && Equivalent(m[0].name, name)
        ensures false
      {
        HeadDiffers(m, i);
        EquivalentIsSameLower(m[i].name, name);
        EquivalentIsSameLower(m[0].name, name);
      }
    }
  }

  /** Storing under any casing overwrites the value and keeps the first casing; other names are not touched. */
  lemma {:induction false} PutIsUpdate(m: Headers, name: string, value: string)
    requires Sorted(m)
    ensures Meaning(Put(m, name, value)) == Update(Meaning(m), name, value)
  {
    var key := LowerAll(name);
    hide LowerAll;
    if m == [] {
      assert [Header(name, value)][1..] == [];
    } else if Less(m[0].name, name) {
      SortedTail(m);
      PutIsUpdate(m[1..], name, value);
      EquivalentIsSameLower(m[0].name, name);
      assert ([m[0]] + Put(m[1..], name, value))[1..] == Put(m[1..], name, value);
    } else if Less(name, m[0].name) {
      AbsentBefore(m, name);
      assert ([Header(name, value)] + m)[1..] == m;
    } else {
      EquivalentIsSameLower(m[0].name, name);
      assert ([m[0].(value := value)] + m[1..])[1..] == m[1..];
    }
  }

  lemma AbsentBefore(m: Headers, name: string)
    requires Sorted(m) && m != [] && Less(name, m[0].name)
    ensures LowerAll(name) !in Meaning(m)
  {
    hide Less, LowerAll;
    MeaningKeys(m, LowerAll(name));
    forall i | 0 <= i < |m|
      ensures LowerAll(m[i].name) != LowerAll(name)
    {
      if i > 0 {
        LessIsTransitive(name, m[0].name, m[i].name);
      }
      EquivalentIsSameLower(name, m[i].name);
    }
  }

  /** A stored name keeps its place and its first casing; a new one is put between the smaller and the larger. */
  lemma {:induction false} PutPlaces(m: Headers, name: string, value: string) returns (k: nat)
    requires Sorted(m)
    ensures k <= |m|
    ensures (exists i :: 0 <= i < |m| && Equivalent(m[i].name, name)) ==>
      k < |m| && Equivalent(m[k].name, name) && Put(m, name, value) == m[k := Header(m[k].name, value)]
    ensures (forall i :: 0 <= i < |m| ==> !Equivalent(m[i].name, name)) ==>
      && Put(m, name, value) == m[..k] + [Header(name, value)] + m[k..]
      && (forall i :: 0 <= i < k ==> Less(m[i].name, name)) && (k < |m| ==> Less(name, m[k].name))
    decreases |m|
  {
    hide Less;
    if m != [] && Less(m[0].name, name) {
      SortedTail(m);
      FirstIsLess(m, name);
      k := PutPlaces(m[1..], name, value);
      k := k + 1;
      PutLater(m, name, value, k);
      hide Put, Equivalent;
    } else {
      k := 0;
      if m != [] {
        FirstOrNone(m, name);
      }
    }
  }

  lemma FirstIsLess(m: Headers, name: string)
    requires m != [] && Less(m[0].name, name)
    ensures (exists i :: 0 <= i < |m| && Equivalent(m[i].name, name)) <==>
      exists i :: 0 <= i < |m| - 1 && Equivalent(m[1..][i].name, name)
  {
    hide Less;
    assert forall i :: 1 <= i < |m| ==> m[i] == m[1..][i - 1];
  }

  lemma PutLater(m: Headers, name: string, value: string, k: nat)
    requires m != [] && Less(m[0].name, name) && 0 < k <= |m|
    ensures k < |m| && Put(m[1..], name, value) == m[1..][k - 1 := Header(m[k].name, value)] ==>
      Put(m, name, value) == m[k := Header(m[k].name, value)]
    ensures Put(m[1..], name, value) == m[1..][..k - 1] + [Header(name, value)] + m[1..][k - 1..] ==>
      Put(m, name, value) == m[..k] + [Header(name, value)] + m[k..]
  {
    hide Less;
    if k < |m| {
      assert m[k := Header(m[k].name, value)] == [m[0]] + m[1..][k - 1 := Header(m[k].name, value)];
    }
    assert m[..k] + [Header(name, value)] + m[k..] ==
      [m[0]] + (m[1..][..k - 1] + [Header(name, value)] + m[1..][k - 1..]);
  }

  /** Where the first name is not smaller, it is the only one that can be the same. */
  lemma FirstOrNone(m: Headers, name: string)
    requires Sorted(m) && m != [] && !Less(m[0].name, name)
    ensures (exists i :: 0 <= i < |m| && Equivalent(m[i].name, name)) ==> Equivalent(m[0].name, name)
  {
    hide Less;
    if i :| 0 <= i < |m| && Equivalent(m[i].name, name) {
      if i > 0 && Less(name, m[0].name) {
        LessIsTransitive(name, m[0].name, m[i].name);
      }
    }
  }

  /** A header stored under one casing is found under exactly the casings of its name. */
  lemma PutThenGet(m: Headers, name: string, value: string, asked: string)
    requires Sorted(m)
    ensures Get(Put(m, name, value), asked) == if LowerAll(asked) == LowerAll(name) then Some(value) else Get(m, asked)
  {
    hide LowerAll, Put, Get, Less;
    PutSorted(m, name, value);
    GetIsMeaning(m, asked);
    GetIsMeaning(Put(m, name, value), asked);
    PutIsUpdate(m, name, value);
  }

  /** The number of entries is the number of names that differ in lower case: nothing is stored twice. */
  lemma {:induction false} NoDuplicates(m: Headers)
    requires Sorted(m)
    ensures |m| == |Meaning(m).Keys|
  {
    if m != [] {
      SortedTail(m);
      NoDuplicates(m[1..]);
      assert Meaning(m).Keys == Meaning(m[1..]).Keys + {LowerAll(m[0].name)};
    }
  }
}
