/**
 What a request's values hold after a dispatch. All targets of a chain extract their
 values before the second one is executed, also those that never are; the chains of the
 plugins among them do so in their turn.
 */
module DispatchValues {
  import opened Wrappers
  import opened RequestValues
  import opened Dispatch
  import opened DispatchRuns

  type Found = seq<Option<Extraction>>

  /** What has been executed so far, and the values. */
  datatype Visit = Visit(exec: Exec, values: Values)

  /** What the targets of some links extract from the path of their chain. */
  function AllFound(x: Extractor, links: seq<Link>, path: string): (found: Found)
    ensures |found| == |links| && forall i :: 0 <= i < |links| ==> found[i] == x(Uri(links[i].target), path)
  {
    if links == [] then [] else [x(Uri(links[0].target), path)] + AllFound(x, links[1..], path)
  }

  /** The values after a chain has been built are those of the first target, of its execution, and of the others. */
  lemma {:induction false} ExtractedInOrder(x: Extractor, links: seq<Link>, path: string, values: Values,
      first: FirstTarget)
    requires links != [] && !links[0].asksFirst && AllAsk(links[1..])
    ensures Extracted(x, links, path, values, first) ==
      match Save(values, x(Uri(links[0].target), path)) {
        case None => None
        case Some(v) =>
          match first(links[0].target, v) {
            case None => None
            case Some(v') => SaveAll(v', AllFound(x, links[1..], path))
          }
      }
  {
    forall v
      ensures Extracted(x, links[1..], path, v, first) == SaveAll(v, AllFound(x, links[1..], path))
    {
      ExtractedLater(x, links[1..], path, v, first);
    }
  }

  lemma {:induction false} ExtractedLater(x: Extractor, links: seq<Link>, path: string, values: Values,
      first: FirstTarget)
    requires AllAsk(links)
    ensures Extracted(x, links, path, values, first) == SaveAll(values, AllFound(x, links, path))
    decreases |links|
  {
    hide Save;
    if links != [] {
      var saved := Save(values, x(Uri(links[0].target), path));
      assert AllFound(x, links, path)[1..] == AllFound(x, links[1..], path);
      if saved.Some? {
        ExtractedLater(x, links[1..], path, saved.value, first);
      }
    }
  }

  // ---------- the run with the values ----------

  /** `None` once an assertion has failed. */
  ghost function VisitPlugin(r: Request, b: Behaviour, x: Extractor, p: ServerPlugin, d: nat, path: string, v: Visit)
    : Option<Visit>
    reads *
    decreases d, 1, 0
  {
    var links, exec := Links(r, p, path), v.exec.(rejected := false);
    if links == [] then Some(v.(exec := exec))
    else
      match Save(v.values, x(Uri(links[0].target), path))
      case None => None
      case Some(values) =>
        match VisitTarget(r, b, x, links[0].target, d, links[0].path, Visit(exec, values))
        case None => None
        case Some(v') =>
          match SaveAll(v'.values, AllFound(x, links[1..], path))
          case None => None
          case Some(values') => VisitLater(r, b, x, links[1..], d, v'.(values := values'))
  }

  ghost function VisitTarget(r: Request, b: Behaviour, x: Extractor, t: Target, d: nat, path: string, v: Visit)
    : Option<Visit>
    reads *
    decreases d, 0, 0
  {
    match t
    case Callback(c) => Some(v.(exec := RunCallback(b, c, v.exec)))
    case Mounted(q) => if d == 0 then Some(v) else VisitPlugin(r, b, x, q.plugin, d - 1, path, v)
  }

  /** The continuations. */
  ghost function VisitLater(r: Request, b: Behaviour, x: Extractor, links: seq<Link>, d: nat, v: Visit): Option<Visit>
    reads *
    decreases d, 0, |links|
  {
    if links == [] then Some(v)
    else
      match if links[0].asksFirst && Stopped(v.exec) then Some(v)
            else VisitTarget(r, b, x, links[0].target, d, links[0].path, v)
      case None => None
      case Some(v') => VisitLater(r, b, x, links[1..], d, v')
  }

  // ---------- the extractions of a run, in order ----------

  ghost function PluginFound(r: Request, b: Behaviour, x: Extractor, p: ServerPlugin, d: nat, path: string, e: Exec)
    : Found
    reads *
    decreases d, 1, 0
  {
    var links, e' := Links(r, p, path), e.(rejected := false);
    if links == [] then []
    else
      [x(Uri(links[0].target), path)] + TargetFound(r, b, x, links[0].target, d, links[0].path, e')
      + AllFound(x, links[1..], path)
      + LaterFound(r, b, x, links[1..], d, RunTarget(r, b, links[0].target, d, links[0].path, e'))
  }

  ghost function TargetFound(r: Request, b: Behaviour, x: Extractor, t: Target, d: nat, path: string, e: Exec): Found
    reads *
    decreases d, 0, 0
  {
    match t
    case Callback(c) => []
    case Mounted(q) => if d == 0 then [] else PluginFound(r, b, x, q.plugin, d - 1, path, e)
  }

  ghost function LaterFound(r: Request, b: Behaviour, x: Extractor, links: seq<Link>, d: nat, e: Exec): Found
    reads *
    decreases d, 0, |links|
  {
    if links == [] then []
    else if links[0].asksFirst && Stopped(e) then LaterFound(r, b, x, links[1..], d, e)
    else
      TargetFound(r, b, x, links[0].target, d, links[0].path, e)
      + LaterFound(r, b, x, links[1..], d, RunTarget(r, b, links[0].target, d, links[0].path, e))
  }

  function Ended(values: Option<Values>, e: Exec): Option<Visit> {
    match values
    case None => None
    case Some(s) => Some(Visit(e, s))
  }

  /** The values do not change what is executed, and what is executed decides which values there are. */
  lemma {:induction false} VisitIsRun(r: Request, b: Behaviour, x: Extractor, p: ServerPlugin, d: nat, path: string,
      v: Visit)
    ensures VisitPlugin(r, b, x, p, d, path, v) ==
      Ended(SaveAll(v.values, PluginFound(r, b, x, p, d, path, v.exec)), RunPlugin(r, b, p, d, path, v.exec))
    decreases d, 1, 0
  {
    var links, e := Links(r, p, path), v.exec.(rejected := false);
    if links != [] {
      var l := links[0];
      var first, inside := x(Uri(l.target), path), TargetFound(r, b, x, l.target, d, l.path, e);
      var e' := RunTarget(r, b, l.target, d, l.path, e);
      var others, later := AllFound(x, links[1..], path), LaterFound(r, b, x, links[1..], d, e');
      SaveInFour(v.values, first, inside, others, later);
      forall values
        ensures VisitTarget(r, b, x, l.target, d, l.path, Visit(e, values)) == Ended(SaveAll(values, inside), e')
      {
        TargetIsRun(r, b, x, l.target, d, l.path, Visit(e, values));
      }
      forall values
        ensures VisitLater(r, b, x, links[1..], d, Visit(e', values)) ==
          Ended(SaveAll(values, later), RunLinks(r, b, links[1..], d, e'))
      {
        LaterIsRun(r, b, x, links[1..], d, Visit(e', values));
      }
    }
  }

  lemma SaveInFour(v: Values, first: Option<Extraction>, inside: Found, others: Found, later: Found)
    ensures SaveAll(v, [first] + inside + others + later) ==
      match Save(v, first) {
        case None => None
        case Some(v1) =>
          match SaveAll(v1, inside) {
            case None => None
            case Some(v2) =>
              match SaveAll(v2, others) {
                case None => None
                case Some(v3) => SaveAll(v3, later)
              }
          }
      }
  {
    var all := [first] + inside + others + later;
    assert all[1..] == inside + others + later;
    SaveAllAppend(v, [first] + inside + others, later);
    SaveAllAppend(v, [first] + inside, others);
    assert ([first] + inside)[1..] == inside;
  }

  lemma {:induction false} TargetIsRun(r: Request, b: Behaviour, x: Extractor, t: Target, d: nat, path: string,
      v: Visit)
    ensures VisitTarget(r, b, x, t, d, path, v) ==
      Ended(SaveAll(v.values, TargetFound(r, b, x, t, d, path, v.exec)), RunTarget(r, b, t, d, path, v.exec))
    decreases d, 0, 0
  {
    if t.Mounted? && d > 0 {
      VisitIsRun(r, b, x, t.data.plugin, d - 1, path, v);
    }
  }

  lemma {:induction false} LaterIsRun(r: Request, b: Behaviour, x: Extractor, links: seq<Link>, d: nat, v: Visit)
    ensures VisitLater(r, b, x, links, d, v) ==
      Ended(SaveAll(v.values, LaterFound(r, b, x, links, d, v.exec)), RunLinks(r, b, links, d, v.exec))
    decreases d, 0, |links|
  {
    if links != [] {
      var l := links[0];
      if l.asksFirst && Stopped(v.exec) {
        LaterIsRun(r, b, x, links[1..], d, v);
      } else {
        TargetIsRun(r, b, x, l.target, d, l.path, v);
        var e := RunTarget(r, b, l.target, d, l.path, v.exec);
        var inside := TargetFound(r, b, x, l.target, d, l.path, v.exec);
        SaveAllAppend(v.values, inside, LaterFound(r, b, x, links[1..], d, e));
        var saved := SaveAll(v.values, inside);
        if saved.Some? {
          LaterIsRun(r, b, x, links[1..], d, Visit(e, saved.value));
        }
      }
    }
  }

  // ---------- which requests the names let through ----------

  /**
   A dispatch fails an assertion exactly when two extractions on its way give one name, or
   a name was there before. Otherwise it executes what it would execute without values,
   and every extracted value is found under its name.
   */
  lemma ValuesExactly(r: Request, b: Behaviour, x: Extractor, p: ServerPlugin, d: nat, path: string, v: Visit)
    ensures var found, end := Nodes(PluginFound(r, b, x, p, d, path, v.exec)), VisitPlugin(r, b, x, p, d, path, v);
      && (end.Some? <==> NewNames(v.values.children, found))
      && (end.Some? ==>
           end.value.exec == RunPlugin(r, b, p, d, path, v.exec) &&
           Holds(v.values.children, found, end.value.values.children))
  {
    VisitIsRun(r, b, x, p, d, path, v);
    SaveAllExactly(v.values, PluginFound(r, b, x, p, d, path, v.exec));
    hide VisitPlugin, PluginFound, RunPlugin, NewNames, Holds;
  }

  /** The target's template gives a value for the name. */
  ghost predicate TargetGives(x: Extractor, t: Target, path: string, name: string) {
    Gives(x(Uri(t), path), name)
  }

  /**
   Two targets of one chain that give the same name fail the dispatch, whatever is sent,
   rejected or executed.
   */
  lemma TwoTargetsClash(r: Request, b: Behaviour, x: Extractor, p: ServerPlugin, d: nat, path: string, v: Visit,
      i: nat, j: nat, name: string)
    requires i < j < |Links(r, p, path)|
    requires TargetGives(x, Links(r, p, path)[i].target, path, name)
    requires TargetGives(x, Links(r, p, path)[j].target, path, name)
    ensures VisitPlugin(r, b, x, p, d, path, v) == None
  {
    hide *;
    var found := PluginFound(r, b, x, p, d, path, v.exec);
    var k, l := FoundAt(r, b, x, p, d, path, v.exec, i, j);
    VisitIsRun(r, b, x, p, d, path, v);
    TargetHere(x, Links(r, p, path)[i].target, path, name);
    TargetHere(x, Links(r, p, path)[j].target, path, name);
    TwiceGiven(v.values, found, k, l, name);
    NotEnded(RunPlugin(r, b, p, d, path, v.exec));
  }

  lemma TargetHere(x: Extractor, t: Target, path: string, name: string)
    requires TargetGives(x, t, path, name)
    ensures Gives(x(Uri(t), path), name)
  {
  }

  lemma NotEnded(e: Exec)
    ensures Ended(None, e) == None
  {
  }

  /** Where the extractions of the chain's own targets stand. */
  lemma FoundAt(r: Request, b: Behaviour, x: Extractor, p: ServerPlugin, d: nat, path: string, e: Exec, i: nat, j: nat)
      returns (k: nat, l: nat)
    requires i < j < |Links(r, p, path)|
    ensures var found, links := PluginFound(r, b, x, p, d, path, e), Links(r, p, path);
      k < l < |found| && found[k] == x(Uri(links[i].target), path) && found[l] == x(Uri(links[j].target), path)
  {
    var links := Links(r, p, path);
    hide Links, AllFound, TargetFound, LaterFound;
    var inside := |TargetFound(r, b, x, links[0].target, d, links[0].path, e.(rejected := false))|;
    k, l := if i == 0 then 0 else inside + i, inside + j;
  }

  /** The first extraction, and those made while the first target is executed. */
  lemma FoundInside(r: Request, b: Behaviour, x: Extractor, p: ServerPlugin, d: nat, path: string, e: Exec, k: nat)
    requires var links := Links(r, p, path);
      links != [] && k < |TargetFound(r, b, x, links[0].target, d, links[0].path, e.(rejected := false))|
    ensures var found, l := PluginFound(r, b, x, p, d, path, e), Links(r, p, path)[0];
      && k + 1 < |found| && found[0] == x(Uri(l.target), path)
      && found[k + 1] == TargetFound(r, b, x, l.target, d, l.path, e.(rejected := false))[k]
  {
    hide Links, AllFound, TargetFound, LaterFound;
  }

  lemma FirstPath(r: Request, p: ServerPlugin, path: string)
    requires Links(r, p, path) != []
    ensures Links(r, p, path)[0].path == path
  {
    hide InOrder;
  }

  /**
   A plugin in first place matches its routes against the whole path: if its mount and one
   of its routes that match give the same name, the dispatch fails.
   */
  lemma MountClash(r: Request, b: Behaviour, x: Extractor, p: ServerPlugin, d: nat, path: string, v: Visit,
      q: PluginData, j: nat, name: string)
    requires d > 0 && Links(r, p, path) != [] && Links(r, p, path)[0].target == Mounted(q)
    requires j < |Links(r, q.plugin, path)| && TargetGives(x, Mounted(q), path, name)
    requires TargetGives(x, Links(r, q.plugin, path)[j].target, path, name)
    ensures VisitPlugin(r, b, x, p, d, path, v) == None
  {
    hide *;
    var e := v.exec.(rejected := false);
    FirstPath(r, p, path);
    MountedFound(r, b, x, q, d, path, e);
    var k := FoundOne(r, b, x, q.plugin, d - 1, path, e, j);
    FoundInside(r, b, x, p, d, path, v.exec, k);
    VisitIsRun(r, b, x, p, d, path, v);
    TargetHere(x, Mounted(q), path, name);
    TargetHere(x, Links(r, q.plugin, path)[j].target, path, name);
    TwiceGiven(v.values, PluginFound(r, b, x, p, d, path, v.exec), 0, k + 1, name);
    NotEnded(RunPlugin(r, b, p, d, path, v.exec));
  }

  lemma MountedFound(r: Request, b: Behaviour, x: Extractor, q: PluginData, d: nat, path: string, e: Exec)
    requires d > 0
    ensures TargetFound(r, b, x, Mounted(q), d, path, e) == PluginFound(r, b, x, q.plugin, d - 1, path, e)
  {
  }

  lemma FoundOne(r: Request, b: Behaviour, x: Extractor, p: ServerPlugin, d: nat, path: string, e: Exec, j: nat)
      returns (k: nat)
    requires j < |Links(r, p, path)|
    ensures var found := PluginFound(r, b, x, p, d, path, e);
      k < |found| && found[k] == x(Uri(Links(r, p, path)[j].target), path)
  {
    if j > 0 {
      hide *;
      var _, l := FoundAt(r, b, x, p, d, path, e, 0, j);
      k := l;
    } else {
      k := 0;
    }
  }
}
