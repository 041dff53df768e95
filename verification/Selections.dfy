/**
 What is picked out of a list: the entries for which a condition holds, in their order.
 */
module Selections {
  /** The places of a list's tail, counted in the list. */
  function Shifted(pos: seq<nat>): (r: seq<nat>)
    ensures |r| == |pos| && forall k :: 0 <= k < |pos| ==> r[k] == pos[k] + 1
    ensures forall i: nat :: i in pos ==> i + 1 in r
  {
    if pos == [] then [] else [pos[0] + 1] + Shifted(pos[1..])
  }

  ghost predicate Increasing(pos: seq<nat>) {
    forall k, m :: 0 <= k < m < |pos| ==> pos[k] < pos[m]
  }

  /** r holds exactly the entries of s that are kept, in their order; `pos` says where they stood. */
  ghost predicate Picked<T>(s: seq<T>, keep: T -> bool, r: seq<T>, pos: seq<nat>) {
    && |pos| == |r| && Increasing(pos)
    && (forall k :: 0 <= k < |r| ==> pos[k] < |s| && r[k] == s[pos[k]] && keep(r[k]))
    && forall i: nat :: i < |s| && keep(s[i]) ==> i in pos
  }

  /** The places behind the first one. */
  lemma PickedLater<T>(s: seq<T>, keep: T -> bool, r: seq<T>, rest: seq<nat>)
    requires s != [] && Picked(s[1..], keep, r, rest)
    ensures |Shifted(rest)| == |r| && Increasing(rest)
    ensures forall k :: 0 <= k < |r| ==>
      0 < Shifted(rest)[k] < |s| && r[k] == s[Shifted(rest)[k]] && keep(s[Shifted(rest)[k]])
    ensures forall i: nat :: 0 < i < |s| && keep(s[i]) ==> i in Shifted(rest)
  {
    hide Shifted;
    forall k | 0 <= k < |r|
      ensures 0 < Shifted(rest)[k] < |s| && r[k] == s[Shifted(rest)[k]]
    {
      assert s[1..][rest[k]] == s[rest[k] + 1];
    }
    forall i: nat | 0 < i < |s| && keep(s[i])
      ensures i in Shifted(rest)
    {
      assert s[1..][i - 1] == s[i];
      assert i - 1 in rest;
    }
  }

  lemma FirstIncreases(rest: seq<nat>)
    requires Increasing(rest)
    ensures Increasing(Shifted(rest)) && Increasing([0] + Shifted(rest))
  {
    hide Shifted;
  }

  lemma FirstOrLater(later: seq<nat>, i: nat)
    requires i > 0 ==> i in later
    ensures i in [0] + later
  {
    assert ([0] + later)[0] == 0;
  }

  lemma PickFirst<T>(s: seq<T>, keep: T -> bool, r: seq<T>, rest: seq<nat>)
    requires s != [] && keep(s[0]) && Picked(s[1..], keep, r, rest)
    ensures Picked(s, keep, [s[0]] + r, [0] + Shifted(rest))
  {
    PickedLater(s, keep, r, rest);
    FirstIncreases(rest);
    hide Shifted, Increasing;
    var r', pos := [s[0]] + r, [0] + Shifted(rest);
    forall k | 0 <= k < |r'|
      ensures pos[k] < |s| && r'[k] == s[pos[k]] && keep(r'[k])
    {
      assert k > 0 ==> r'[k] == r[k - 1] && pos[k] == Shifted(rest)[k - 1];
    }
    forall i: nat | i < |s| && keep(s[i])
      ensures i in pos
    {
      FirstOrLater(Shifted(rest), i);
    }
  }

  lemma PickLater<T>(s: seq<T>, keep: T -> bool, r: seq<T>, rest: seq<nat>)
    requires s != [] && !keep(s[0]) && Picked(s[1..], keep, r, rest)
    ensures Picked(s, keep, r, Shifted(rest))
  {
    PickedLater(s, keep, r, rest);
    FirstIncreases(rest);
    hide Shifted, Increasing;
    var pos := Shifted(rest);
    forall i: nat | i < |s| && keep(s[i])
      ensures i in pos
    {
      assert i > 0;
    }
    hide Picked;
    PickedIntro(s, keep, r, pos);
  }

  lemma PickedIntro<T>(s: seq<T>, keep: T -> bool, r: seq<T>, pos: seq<nat>)
    requires |pos| == |r| && Increasing(pos)
    requires forall k :: 0 <= k < |r| ==> pos[k] < |s| && r[k] == s[pos[k]] && keep(s[pos[k]])
    requires forall i: nat :: i < |s| && keep(s[i]) ==> i in pos
    ensures Picked(s, keep, r, pos)
  {
    hide Increasing;
  }
}
