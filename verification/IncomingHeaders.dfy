/**
 Assembling the headers of an incoming message from the fragments in which the parser
 delivers names and values.
 */
module IncomingHeaders {
  import opened Wrappers
  import opened HeaderMap

  /** A callback of the HTTP parser with the characters it was given. */
  datatype Event = Field(at: string) | Value(at: string)

  datatype Assembly = Assembly(field: string, value: string, wasValue: bool, complete: bool, headers: Headers)

  /** The entry being assembled, if it has a name, is stored. */
  function Stored(a: Assembly): Headers {
    if a.field == "" then a.headers else Put(a.headers, a.field, a.value)
  }

  function Step(a: Assembly, e: Event): Assembly {
    match e
    case Field(at) =>
      if a.wasValue
      then Assembly(at, if a.field == "" then a.value else "", false, a.complete, Stored(a))
      else a.(field := a.field + at)
    case Value(at) =>
      if a.wasValue then a.(value := a.value + at, complete := true)
      else a.(value := at, wasValue := true, complete := true)
  }

  function Run(a: Assembly, events: seq<Event>): Assembly
    decreases |events|
  {
    if events == [] then a else Run(Step(a, events[0]), events[1..])
  }

  /** The callbacks on the message, as methods that update its fields. */
  class IncomingMessage {
    var lastHeaderField: string
    var lastHeaderValue: string
    var wasHeaderValue: bool
    var headerComplete: bool
    var headers: Headers

    function View(): Assembly
      reads this
    {
      Assembly(lastHeaderField, lastHeaderValue, wasHeaderValue, headerComplete, headers)
    }

    constructor ()
      ensures View() == Assembly("", "", true, false, [])
    {
      lastHeaderField, lastHeaderValue := "", "";
      wasHeaderValue, headerComplete := true, false;
      headers := [];
    }

    method OnHeaderField(at: string)
      modifies this
      ensures View() == Step(old(View()), Field(at))
    {
      if wasHeaderValue {
        if lastHeaderField != "" {
          headers := Put(headers, lastHeaderField, lastHeaderValue);
          lastHeaderValue := "";
        }
        lastHeaderField := at;
        wasHeaderValue := false;
      } else {
        lastHeaderField := lastHeaderField + at;
      }
    }

    method OnHeaderValue(at: string)
      modifies this
      ensures View() == Step(old(View()), Value(at))
    {
      headerComplete := true;
      if !wasHeaderValue {
        lastHeaderValue := at;
        wasHeaderValue := true;
      } else {
        lastHeaderValue := lastHeaderValue + at;
      }
    }

    method OnHeadersComplete()
      modifies this
      ensures View() == old(View()).(headers := Stored(old(View())))
    {
      if lastHeaderField != "" {
        headers := Put(headers, lastHeaderField, lastHeaderValue);
      }
    }

    /** The parser at work on the header section of one message. */
    method Receive(events: seq<Event>)
      modifies this
      ensures headers == Stored(Run(old(View()), events))
    {
      var i := 0;
      assert events[0..] == events;
      while i < |events|
        invariant 0 <= i <= |events|
        invariant Run(View(), events[i..]) == Run(old(View()), events)
      {
        assert events[i..][0] == events[i] && events[i..][1..] == events[i + 1..];
        match events[i] {
          case Field(at) => OnHeaderField(at);
          case Value(at) => OnHeaderValue(at);
        }
        i := i + 1;
      }
      OnHeadersComplete();
    }
  }

  // ---------- what should come out ----------

  /** A header as the parser delivers it: its name and its value, each in one or more fragments. */
  datatype Fragments = Fragments(names: seq<string>, values: seq<string>)

  function Join(parts: seq<string>): string {
    if parts == [] then "" else parts[0] + Join(parts[1..])
  }

  function Whole(f: Fragments): Header {
    Header(Join(f.names), Join(f.values))
  }

  function WholeAll(fs: seq<Fragments>): seq<Header> {
    if fs == [] then [] else [Whole(fs[0])] + WholeAll(fs[1..])
  }

  function Fields(parts: seq<string>): seq<Event> {
    if parts == [] then [] else [Field(parts[0])] + Fields(parts[1..])
  }

  function Values(parts: seq<string>): seq<Event> {
    if parts == [] then [] else [Value(parts[0])] + Values(parts[1..])
  }

  function Events(fs: seq<Fragments>): seq<Event> {
    if fs == [] then [] else Fields(fs[0].names) + Values(fs[0].values) + Events(fs[1..])
  }

  ghost predicate Delivered(fs: seq<Fragments>) {
    forall i :: 0 <= i < |fs| ==> fs[i].names != [] && fs[i].values != []
  }

  /** Storing whole headers one after the other; the last value of a name wins. */
  function Fold(m: Headers, hs: seq<Header>): Headers
    decreases |hs|
  {
    if hs == [] then m
    else Fold(if hs[0].name == "" then m else Put(m, hs[0].name, hs[0].value), hs[1..])
  }

  // ---------- independence of fragmentation ----------

  lemma {:induction false} RunAppend(a: Assembly, es: seq<Event>, es': seq<Event>)
    ensures Run(a, es + es') == Run(Run(a, es), es')
    decreases |es|
  {
    if es == [] {
      assert es + es' == es';
    } else {
      RunAppend(Step(a, es[0]), es[1..], es');
      assert (es + es')[0] == es[0] && (es + es')[1..] == es[1..] + es';
    }
  }

  lemma {:induction false} MoreFields(a: Assembly, parts: seq<string>)
    requires !a.wasValue
    ensures Run(a, Fields(parts)) == a.(field := a.field + Join(parts))
    decreases |parts|
  {
    if parts != [] {
      var a' := a.(field := a.field + parts[0]);
      MoreFields(a', parts[1..]);
      assert a.field + parts[0] + Join(parts[1..]) == a.field + Join(parts);
    } else {
      assert a.field + "" == a.field;
    }
  }

  lemma {:induction false} MoreValues(a: Assembly, parts: seq<string>)
    requires a.wasValue && a.complete
    ensures Run(a, Values(parts)) == a.(value := a.value + Join(parts))
    decreases |parts|
  {
    if parts != [] {
      MoreValues(a.(value := a.value + parts[0]), parts[1..]);
      assert a.value + parts[0] + Join(parts[1..]) == a.value + Join(parts);
    } else {
      assert a.value + "" == a.value;
    }
  }

  /** One header, from the last value of the header before it to its own last value. */
  lemma OneHeader(a: Assembly, f: Fragments)
    requires a.wasValue && f.names != [] && f.values != []
    ensures Run(a, Fields(f.names) + Values(f.values)) == Assembly(Join(f.names), Join(f.values), true, true, Stored(a))
  {
    RunAppend(a, Fields(f.names), Values(f.values));
    var b := Step(a, Field(f.names[0]));
    MoreFields(b, f.names[1..]);
    var c := b.(field := Join(f.names));
    assert Run(a, Fields(f.names)) == c;
    MoreValues(Step(c, Value(f.values[0])), f.values[1..]);
  }

  lemma {:induction false} AllHeaders(a: Assembly, fs: seq<Fragments>)
    requires a.wasValue && Delivered(fs)
    ensures Stored(Run(a, Events(fs))) == Fold(Stored(a), WholeAll(fs))
    decreases |fs|
  {
    if fs != [] {
      var f := fs[0];
      var b := Assembly(Join(f.names), Join(f.values), true, true, Stored(a));
      OneHeader(a, f);
      RunAppend(a, Fields(f.names) + Values(f.values), Events(fs[1..]));
      AllHeaders(b, fs[1..]);
      assert WholeAll(fs)[0] == Whole(f) && WholeAll(fs)[1..] == WholeAll(fs[1..]);
    }
  }

  const FRESH := Assembly("", "", true, false, [])

  /** Two deliveries of the same headers give the same map, and it is the fold over the whole headers. */
  lemma FragmentationDoesNotMatter(fs: seq<Fragments>, fs': seq<Fragments>)
    requires Delivered(fs) && Delivered(fs') && WholeAll(fs) == WholeAll(fs')
    ensures Stored(Run(FRESH, Events(fs))) == Stored(Run(FRESH, Events(fs'))) == Fold([], WholeAll(fs))
  {
    AllHeaders(FRESH, fs);
    AllHeaders(FRESH, fs');
  }

  // ---------- what a lookup then finds ----------

  predicate Named(h: Header, asked: string) {
    h.name != "" && LowerAll(h.name) == LowerAll(asked)
  }

  /** The value of the last header whose name is the asked one in lower case. */
  function LastValue(hs: seq<Header>, asked: string): (value: Option<string>)
    ensures value.None? ==> forall i :: 0 <= i < |hs| ==> !Named(hs[i], asked)
    ensures value.Some? ==>
      exists i :: (0 <= i < |hs| && Named(hs[i], asked) && value == Some(hs[i].value)
                   && forall j :: i < j < |hs| ==> !Named(hs[j], asked))
  {
    if hs == [] then None
    else
      assert forall i :: 1 <= i < |hs| ==> hs[i] == hs[1..][i - 1];
      assert forall i :: 0 <= i < |hs| - 1 ==> hs[1..][i] == hs[i + 1];
      match LastValue(hs[1..], asked)
      case Some(v) => Some(v)
      case None =>
        if Named(hs[0], asked) then Some(hs[0].value) else None
  }

  lemma {:induction false} FoldIsLastWins(m: Headers, hs: seq<Header>, asked: string)
    requires Sorted(m)
    ensures Sorted(Fold(m, hs))
    ensures Get(Fold(m, hs), asked) ==
      match LastValue(hs, asked) { case Some(v) => Some(v) case None => Get(m, asked) }
    decreases |hs|
  {
    hide LowerAll, Put, Get, Sorted;
    if hs != [] {
      var m' := if hs[0].name == "" then m else Put(m, hs[0].name, hs[0].value);
      if hs[0].name != "" {
        PutSorted(m, hs[0].name, hs[0].value);
        PutThenGet(m, hs[0].name, hs[0].value, asked);
      }
      FoldIsLastWins(m', hs[1..], asked);
    }
  }

  /** After the headers are complete, a lookup under any casing finds the last value sent under that name. */
  lemma LookupFindsLastValue(fs: seq<Fragments>, asked: string)
    requires Delivered(fs)
    ensures Get(Stored(Run(FRESH, Events(fs))), asked) == LastValue(WholeAll(fs), asked)
  {
    hide Get;
    FragmentationDoesNotMatter(fs, fs);
    FoldIsLastWins([], WholeAll(fs), asked);
    GetNothing(asked);
  }

  lemma GetNothing(asked: string)
    ensures Get([], asked) == None
  {
  }

  /** A name without a value fragment runs into the next name. */
  lemma NameWithoutValue()
    ensures Get(Stored(Run(FRESH, [Field("A"), Field("B"), Value("x")])), "ab") == Some("x")
  {
    var es := [Field("A"), Field("B"), Value("x")];
    assert es[1..] == [Field("B"), Value("x")] && es[1..][1..] == [Value("x")] && es[1..][1..][1..] == [];
    assert "A" + "B" == "AB";
    EquivalentIsSameLower("AB", "ab");
    assert LowerAll("AB") == "ab" && LowerAll("ab") == "ab";
  }

  // ---------- every delivery is a delivery of headers ----------

  function LeadingFields(es: seq<Event>): seq<string> {
    if es == [] || es[0].Value? then [] else [es[0].at] + LeadingFields(es[1..])
  }

  function LeadingValues(es: seq<Event>): seq<string> {
    if es == [] || es[0].Field? then [] else [es[0].at] + LeadingValues(es[1..])
  }

  lemma {:induction false} FieldsLead(es: seq<Event>)
    ensures var ps := LeadingFields(es);
      |ps| <= |es| && es == Fields(ps) + es[|ps|..] && (|ps| < |es| ==> es[|ps|].Value?)
  {
    if es != [] && es[0].Field? {
      FieldsLead(es[1..]);
      var ps := LeadingFields(es[1..]);
      assert es[1..][|ps|..] == es[1 + |ps|..];
      assert LeadingFields(es)[1..] == ps;
    }
  }

  lemma {:induction false} ValuesLead(es: seq<Event>)
    ensures var ps := LeadingValues(es);
      |ps| <= |es| && es == Values(ps) + es[|ps|..] && (|ps| < |es| ==> es[|ps|].Field?)
  {
    if es != [] && es[0].Value? {
      ValuesLead(es[1..]);
      var ps := LeadingValues(es[1..]);
      assert es[1..][|ps|..] == es[1 + |ps|..];
      assert LeadingValues(es)[1..] == ps;
    }
  }

  lemma {:induction false} FieldsAreFields(ps: seq<string>)
    ensures |Fields(ps)| == |ps| && forall i :: 0 <= i < |ps| ==> Fields(ps)[i].Field?
  {
    if ps != [] {
      FieldsAreFields(ps[1..]);
    }
  }

  lemma EventsCons(f: Fragments, fs: seq<Fragments>)
    requires f.names != [] && f.values != [] && Delivered(fs)
    ensures Delivered([f] + fs) && Events([f] + fs) == Fields(f.names) + Values(f.values) + Events(fs)
  {
    assert ([f] + fs)[1..] == fs;
  }

  predicate FieldToValue(es: seq<Event>) {
    es == [] || (es[0].Field? && es[|es| - 1].Value?)
  }

  lemma LeadingName(es: seq<Event>)
    requires es != [] && FieldToValue(es)
    ensures var names := LeadingFields(es);
      && 0 < |names| < |es| && es == Fields(names) + es[|names|..]
      && es[|names|].Value? && es[|es| - 1].Value?
  {
    FieldsLead(es);
    NamesEnd(es, LeadingFields(es));
    hide Fields;
  }

  lemma NamesEnd(es: seq<Event>, names: seq<string>)
    requires es != [] && es[|es| - 1].Value?
    requires |names| <= |es| && es == Fields(names) + es[|names|..]
    ensures |names| < |es|
  {
    FieldsAreFields(names);
    hide Fields;
  }

  lemma LeadingValue(es: seq<Event>)
    requires es != [] && es[0].Value? && es[|es| - 1].Value?
    ensures var values := LeadingValues(es);
      && 0 < |values| <= |es| && es == Values(values) + es[|values|..]
      && FieldToValue(es[|values|..])
  {
    ValuesLead(es);
    hide Values;
  }

  /** Callbacks that begin with a name and end with a value start with one header. */
  lemma FirstDelivery(es: seq<Event>) returns (f: Fragments, rest: seq<Event>)
    requires es != [] && FieldToValue(es)
    ensures f.names != [] && f.values != [] && es == Fields(f.names) + Values(f.values) + rest && |rest| < |es|
    ensures FieldToValue(rest)
  {
    hide *;
    LeadingName(es);
    var names := LeadingFields(es);
    LeadingValue(es[|names|..]);
    var values := LeadingValues(es[|names|..]);
    f := Fragments(names, values);
    rest := es[|names|..][|values|..];
  }

  /** Every such sequence of callbacks is a delivery of some headers, each with a name and a value. */
  lemma {:induction false} EveryDeliveryIsOfHeaders(es: seq<Event>) returns (fs: seq<Fragments>)
    requires FieldToValue(es)
    ensures Delivered(fs) && Events(fs) == es
    decreases |es|
  {
    if es == [] {
      fs := [];
    } else {
      var f, rest := FirstDelivery(es);
      hide Delivered, Events, Fields, Values;
      fs := EveryDeliveryIsOfHeaders(rest);
      EventsCons(f, fs);
      fs := [f] + fs;
    }
  }
}
