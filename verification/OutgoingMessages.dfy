/**
 Writing a message: the header block goes out once, in front of the first piece of the
 body, and what it says about the length of the body holds for the whole run.
 */
module OutgoingMessages {
  import opened Wrappers
  import opened HeaderMap
  import IncomingHeaders

  const CONTENT_TYPE := "Content-Type"
  const CONTENT_LENGTH := "Content-Length"
  const CONNECTION := "Connection"
  const TRANSFER_ENCODING := "Transfer-Encoding"

  /** The fields of a message, and everything it has handed to sendData. */
  datatype State = State(
    headerSent: bool,
    closed: bool,
    sent: bool,
    last: bool,
    chunked: bool,
    keepAlive: bool,
    headers: Headers,
    wire: seq<string>)

  /** What a caller does; `first` is the first line that the kind of message puts before its headers. */
  datatype Op =
    | SetHeader(name: string, value: string)
    | SetKeepAlive(on: bool)
    | Write(first: string, body: string)
    | End(first: string, body: string)

  function Initial(chunked: bool): State {
    State(false, false, false, false, chunked, true, [Header(CONTENT_TYPE, "text/html")], [])
  }

  // ---------- the header block ----------

  function Digit(d: nat): char
    requires d < 10
  {
    '0' + d as char
  }

  function Decimal(n: nat): string {
    if n < 10 then [Digit(n)] else Decimal(n / 10) + [Digit(n % 10)]
  }

  /** The number that a string of digits denotes. */
  function Number(s: string): int {
    if s == "" then 0 else 10 * Number(s[..|s| - 1]) + (s[|s| - 1] as int - '0' as int)
  }

  lemma {:induction false} DecimalDenotes(n: nat)
    ensures Number(Decimal(n)) == n
  {
    if n >= 10 {
      DecimalDenotes(n / 10);
      assert Decimal(n)[..|Decimal(n)| - 1] == Decimal(n / 10);
    } else {
      assert Decimal(n)[..0] == "";
    }
  }

  const DIGITS := "0123456789"

  /** A number is written in base ten: the digits of its tens, and then its last digit. */
  lemma DecimalDigits(n: nat, d: nat)
    requires d < 10
    ensures Decimal(10 * n + d) == if n == 0 then [DIGITS[d]] else Decimal(n) + [DIGITS[d]]
  {
    assert (10 * n + d) / 10 == n && (10 * n + d) % 10 == d;
  }

  function Lines(m: Headers): string {
    if m == [] then "" else m[0].name + ": " + m[0].value + "\r\n" + Lines(m[1..])
  }

  function Render(first: string, m: Headers): string {
    first + Lines(m) + "\r\n"
  }

  /** The length is given automatically: the body is not chunked and nobody has given its length. */
  predicate AutoLength(o: State) {
    !(o.chunked && !o.last) && Get(o.headers, CONTENT_LENGTH).None?
  }

  /** The headers as they are sent before the piece `body`. */
  function Prepared(o: State, body: string): Headers {
    var withLength := if AutoLength(o) then Put(o.headers, CONTENT_LENGTH, Decimal(|body|)) else o.headers;
    var withConnection := Put(withLength, CONNECTION, if o.keepAlive then "keep-alive" else "close");
    if o.chunked && !o.last then Put(withConnection, TRANSFER_ENCODING, "chunked") else withConnection
  }

  // ---------- the steps ----------

  function Written(o: State, first: string, body: string): State {
    if o.headerSent then o.(wire := o.wire + [body])
    else
      var auto := AutoLength(o);
      State(true, o.closed || auto, o.sent || auto, o.last, o.chunked && !o.last, o.keepAlive,
            Prepared(o, body), o.wire + [Render(first, Prepared(o, body)) + body])
  }

  /** A closed message refuses to be written; everything else is accepted. */
  predicate Accepted(o: State, op: Op) {
    match op
    case Write(_, _) => !o.closed
    case End(_, _) => !o.closed && !o.last
    case _ => true
  }

  function Step(o: State, op: Op): State {
    if !Accepted(o, op) then o else
    match op
    case SetHeader(name, value) => o.(headers := Put(o.headers, name, value))
    case SetKeepAlive(on) => o.(keepAlive := on)
    case Write(first, body) => Written(o, first, body)
    case End(first, body) => Written(o.(last := true), first, body).(closed := true, sent := true)
  }

  /** A response without content is the last on its connection. */
  function PreparedFor(o: State, statusCode: nat): State {
    if !o.headerSent && (statusCode == 204 || statusCode == 304) then o.(keepAlive := false) else o
  }

  function Run(o: State, ops: seq<Op>): State
    decreases |ops|
  {
    if ops == [] then o else Run(Step(o, ops[0]), ops[1..])
  }

  /** The message; a refused call is a failed assertion and changes nothing. */
  class OutgoingMessage {
    var headerSent: bool
    var closed: bool
    var sent: bool
    var last: bool
    var chunkedEncoding: bool
    var shouldKeepAlive: bool
    var headers: Headers
    var sentData: seq<string>

    function View(): State
      reads this
    {
      State(headerSent, closed, sent, last, chunkedEncoding, shouldKeepAlive, headers, sentData)
    }

    /** A request. */
    constructor Request()
      ensures View() == Initial(true)
    {
      headerSent, closed, sent, last, chunkedEncoding, shouldKeepAlive := false, false, false, false, true, true;
      headers := Put([], CONTENT_TYPE, "text/html");
      sentData := [];
    }

    /** A response to an incoming message. */
    constructor Response()
      ensures View() == Initial(false)
    {
      headerSent, closed, sent, last, chunkedEncoding, shouldKeepAlive := false, false, false, false, false, true;
      headers := Put([], CONTENT_TYPE, "text/html");
      sentData := [];
    }

    method SetHeaderValue(name: string, value: string)
      modifies this
      ensures View() == Step(old(View()), SetHeader(name, value))
    {
      headers := Put(headers, name, value);
    }

    /** What a response does before its headers go out: after these two statuses the connection is closed. */
    method PrepareResponse(statusCode: nat)
      modifies this
      ensures View() == PreparedFor(old(View()), statusCode)
    {
      if !headerSent {
        if statusCode == 204 || statusCode == 304 {
          shouldKeepAlive := false;
        }
      }
    }

    method WriteData(first: string, str: string) returns (ok: bool)
      modifies this
      ensures ok == Accepted(old(View()), Write(first, str))
      ensures View() == Step(old(View()), Write(first, str))
    {
      if closed {
        return false;
      }
      var data := "";
      hide Get, Put, Render, Decimal;
      if !headerSent {
        if last {
          chunkedEncoding := false;
        }
        if !chunkedEncoding && Get(headers, CONTENT_LENGTH).None? {
          headers := Put(headers, CONTENT_LENGTH, Decimal(|str|));
          closed := true;
          sent := true;
        }
        headers := Put(headers, CONNECTION, if shouldKeepAlive then "keep-alive" else "close");
        if chunkedEncoding {
          headers := Put(headers, TRANSFER_ENCODING, "chunked");
        }
        headerSent := true;
        data := Render(first, headers);
      }
      if str != "" {
        data := data + str;
      }
      sentData := sentData + [data];
      ok := true;
      assert data + "" == data && "" + str == str;
    }

    method EndData(first: string, str: string) returns (ok: bool)
      modifies this
      ensures ok == Accepted(old(View()), End(first, str))
      ensures View() == Step(old(View()), End(first, str))
    {
      if closed || last {
        return false;
      }
      last := true;
      ok := WriteData(first, str);
      closed := true;
      sent := true;
    }
  }

  // ---------- what every step keeps ----------

  ghost predicate Valid(o: State) {
    && o.sent == o.closed
    && (o.last ==> o.closed)
    && (!o.headerSent ==> !o.closed && o.wire == [])
    && Sorted(o.headers)
  }

  lemma InitialValid(chunked: bool)
    ensures Valid(Initial(chunked))
  {
  }

  lemma PreparedSorted(o: State, body: string)
    requires Sorted(o.headers)
    ensures Sorted(Prepared(o, body))
  {
    hide Sorted, Put, Get, Decimal;
    PutSorted(o.headers, CONTENT_LENGTH, Decimal(|body|));
    var withLength := if AutoLength(o) then Put(o.headers, CONTENT_LENGTH, Decimal(|body|)) else o.headers;
    var connection := if o.keepAlive then "keep-alive" else "close";
    PutSorted(withLength, CONNECTION, connection);
    PutSorted(Put(withLength, CONNECTION, connection), TRANSFER_ENCODING, "chunked");
  }

  lemma StepValid(o: State, op: Op)
    requires Valid(o)
    ensures Valid(Step(o, op))
  {
    hide Sorted, Prepared, Render, Put, AutoLength;
    if op.SetHeader? {
      PutSorted(o.headers, op.name, op.value);
    }
    if op.Write? {
      PreparedSorted(o, op.body);
    }
    if op.End? {
      PreparedSorted(o.(last := true), op.body);
    }
  }

  predicate Sends(op: Op) {
    op.Write? || op.End?
  }

  /** The pieces of the body that the run of these operations sends. */
  function Bodies(o: State, ops: seq<Op>): seq<string>
    decreases |ops|
  {
    if ops == [] then []
    else (if Sends(ops[0]) && Accepted(o, ops[0]) then [ops[0].body] else []) + Bodies(Step(o, ops[0]), ops[1..])
  }

  /** Behind the header block there is nothing but the pieces of the body. */
  lemma {:induction false} LaterWire(o: State, ops: seq<Op>)
    requires o.headerSent
    ensures Run(o, ops).headerSent && Run(o, ops).wire == o.wire + Bodies(o, ops)
    decreases |ops|
  {
    if ops == [] {
      assert o.wire + [] == o.wire;
    } else {
      LaterStep(o, ops[0]);
      hide Step, Accepted, Sends;
      LaterWire(Step(o, ops[0]), ops[1..]);
    }
  }

  lemma LaterStep(o: State, op: Op)
    requires o.headerSent
    ensures Step(o, op).headerSent
    ensures Step(o, op).wire == o.wire + if Sends(op) && Accepted(o, op) then [op.body] else []
  {
    hide Put, Prepared, Render, AutoLength;
  }

  /** A closed message stays closed, and sends nothing more. */
  lemma {:induction false} ClosedIsFinal(o: State, ops: seq<Op>)
    requires o.closed && o.headerSent
    ensures Run(o, ops).closed && Bodies(o, ops) == []
    decreases |ops|
  {
    hide Put, Prepared, Render, AutoLength;
    if ops != [] {
      ClosedIsFinal(Step(o, ops[0]), ops[1..]);
    }
  }

  lemma {:induction false} RunAppend(o: State, ops: seq<Op>, ops': seq<Op>)
    ensures Run(o, ops + ops') == Run(Run(o, ops), ops')
    decreases |ops|
  {
    hide Step;
    if ops == [] {
      assert ops + ops' == ops';
    } else {
      RunAppend(Step(o, ops[0]), ops[1..], ops');
      assert (ops + ops')[0] == ops[0] && (ops + ops')[1..] == ops[1..] + ops';
    }
  }

  // ---------- the shape of a run ----------

  ghost predicate Settings(ops: seq<Op>) {
    forall i :: 0 <= i < |ops| ==> !Sends(ops[i])
  }

  predicate SetBy(op: Op, name: string) {
    op.SetHeader? && LowerAll(op.name) == LowerAll(name)
  }

  /** The caller has set the header, in whatever casing. */
  ghost predicate CallerSet(ops: seq<Op>, name: string) {
    exists i :: 0 <= i < |ops| && SetBy(ops[i], name)
  }

  lemma CallerSetStep(ops: seq<Op>, name: string)
    requires ops != []
    ensures CallerSet(ops, name) <==> SetBy(ops[0], name) || CallerSet(ops[1..], name)
  {
    hide SetBy;
    assert forall i :: 0 <= i < |ops[1..]| ==> ops[1..][i] == ops[i + 1];
    assert forall i :: 1 <= i < |ops| ==> ops[i] == ops[1..][i - 1];
  }

  /** Before the first piece only the headers and the keep-alive flag change. */
  lemma {:induction false} SettingsOnly(o: State, ops: seq<Op>)
    requires Valid(o) && Settings(ops)
    ensures var r := Run(o, ops);
      Valid(r) && r == o.(headers := r.headers, keepAlive := r.keepAlive)
    decreases |ops|
  {
    if ops != [] {
      StepValid(o, ops[0]);
      assert forall i :: 0 <= i < |ops[1..]| ==> ops[1..][i] == ops[i + 1];
      assert !Sends(ops[0]);
      hide Valid, Put;
      SettingsOnly(Step(o, ops[0]), ops[1..]);
    }
  }

  lemma {:induction false} SettingsSet(o: State, ops: seq<Op>, name: string)
    requires Valid(o) && Settings(ops)
    ensures Get(Run(o, ops).headers, name).Some? <==> Get(o.headers, name).Some? || CallerSet(ops, name)
    decreases |ops|
  {
    if ops != [] {
      StepValid(o, ops[0]);
      assert forall i :: 0 <= i < |ops[1..]| ==> ops[1..][i] == ops[i + 1];
      assert !Sends(ops[0]);
      if ops[0].SetHeader? {
        PutThenGet(o.headers, ops[0].name, ops[0].value, name);
      }
      CallerSetStep(ops, name);
      hide Valid, Put, Get, CallerSet, LowerAll, Settings;
      SettingsSet(Step(o, ops[0]), ops[1..], name);
    }
  }

  /** The value of the last call that sets the header, in whatever casing. */
  function LastSet(ops: seq<Op>, name: string): (value: Option<string>)
    ensures value.None? ==> forall i :: 0 <= i < |ops| ==> !SetBy(ops[i], name)
    ensures value.Some? ==>
      exists i :: (0 <= i < |ops| && SetBy(ops[i], name) && value == Some(ops[i].value)
                   && forall j :: i < j < |ops| ==> !SetBy(ops[j], name))
  {
    if ops == [] then None
    else
      var later := LastSet(ops[1..], name);
      assert forall i :: 1 <= i < |ops| ==> ops[i] == ops[1..][i - 1];
      assert forall i :: 0 <= i < |ops| - 1 ==> ops[1..][i] == ops[i + 1];
      if later.Some? then later else if SetBy(ops[0], name) then Some(ops[0].value) else None
  }

  /** The flag of the last call that sets it, `start` if there is none. */
  function LastKeepAlive(ops: seq<Op>, start: bool): bool {
    if ops == [] then start
    else LastKeepAlive(ops[1..], if ops[0].SetKeepAlive? then ops[0].on else start)
  }

  lemma {:induction false} SettingsLast(o: State, ops: seq<Op>, name: string)
    requires Valid(o) && Settings(ops)
    ensures Get(Run(o, ops).headers, name) ==
      if LastSet(ops, name).Some? then LastSet(ops, name) else Get(o.headers, name)
    ensures Run(o, ops).keepAlive == LastKeepAlive(ops, o.keepAlive)
    decreases |ops|
  {
    if ops != [] {
      StepValid(o, ops[0]);
      SettingsRest(ops);
      FirstSetting(o, ops[0], name);
      hide Valid, Put, Get, LowerAll, Settings, Step, Sends;
      SettingsLast(Step(o, ops[0]), ops[1..], name);
    }
  }

  lemma SettingsRest(ops: seq<Op>)
    requires Settings(ops) && ops != []
    ensures Settings(ops[1..]) && !Sends(ops[0])
  {
    assert forall i :: 0 <= i < |ops| - 1 ==> ops[1..][i] == ops[i + 1];
  }

  lemma FirstSetting(o: State, op: Op, name: string)
    requires Valid(o) && !Sends(op)
    ensures Get(Step(o, op).headers, name) == if SetBy(op, name) then Some(op.value) else Get(o.headers, name)
    ensures Step(o, op).keepAlive == if op.SetKeepAlive? then op.on else o.keepAlive
  {
    hide Put, Get, LowerAll, Sorted;
    if op.SetHeader? {
      PutThenGet(o.headers, op.name, op.value, name);
    }
  }

  /** The state in which the first piece prepares the headers. */
  function Ready(o: State, op: Op): State {
    if op.End? then o.(last := true) else o
  }

  /** The headers in the block that the first piece sends. */
  function Block(o: State, op: Op): Headers
    requires Sends(op)
  {
    Prepared(Ready(o, op), op.body)
  }

  lemma FirstPiece(o: State, op: Op)
    requires Valid(o) && !o.headerSent && Sends(op)
    ensures Accepted(o, op) && Valid(Step(o, op)) && Step(o, op).headerSent
    ensures Step(o, op).wire == [Render(op.first, Block(o, op)) + op.body]
    ensures op.End? || AutoLength(o) ==> Step(o, op).closed
  {
    StepValid(o, op);
    hide Prepared, Render, Sorted, Put, Get;
  }

  /** The first piece of the body, |ops| if there is none. */
  function FirstSend(ops: seq<Op>): (i: nat)
    ensures i <= |ops| && (forall j :: 0 <= j < i ==> !Sends(ops[j])) && (i < |ops| ==> Sends(ops[i]))
  {
    if ops == [] || Sends(ops[0]) then 0
    else
      assert forall j :: 0 <= j < |ops[1..]| ==> ops[1..][j] == ops[j + 1];
      1 + FirstSend(ops[1..])
  }

  /** The headers of the block that a run sends. */
  function SentHeaders(chunked: bool, ops: seq<Op>): Headers
    requires FirstSend(ops) < |ops|
  {
    var i := FirstSend(ops);
    Block(Run(Initial(chunked), ops[..i]), ops[i])
  }

  lemma {:induction false} BodiesAppend(o: State, ops: seq<Op>, ops': seq<Op>)
    ensures Bodies(o, ops + ops') == Bodies(o, ops) + Bodies(Run(o, ops), ops')
    decreases |ops|
  {
    hide Step, Accepted;
    if ops == [] {
      assert ops + ops' == ops';
    } else {
      BodiesAppend(Step(o, ops[0]), ops[1..], ops');
      assert (ops + ops')[0] == ops[0] && (ops + ops')[1..] == ops[1..] + ops';
    }
  }

  lemma {:induction false} NoBodies(o: State, ops: seq<Op>)
    requires Settings(ops)
    ensures Bodies(o, ops) == []
    decreases |ops|
  {
    if ops != [] {
      assert !Sends(ops[0]) && forall i :: 0 <= i < |ops[1..]| ==> ops[1..][i] == ops[i + 1];
      hide Step;
      NoBodies(Step(o, ops[0]), ops[1..]);
    }
  }

  /** The run from the first piece on. */
  lemma ShapeFrom(o: State, op: Op, post: seq<Op>)
    requires Valid(o) && !o.headerSent && Sends(op)
    ensures Bodies(o, [op] + post) == [op.body] + Bodies(Step(o, op), post)
    ensures IncomingHeaders.Join(Run(o, [op] + post).wire) ==
      Render(op.first, Block(o, op)) + IncomingHeaders.Join([op.body] + Bodies(Step(o, op), post))
  {
    hide Valid, Block, Render, Step, IncomingHeaders.Join, Accepted;
    FirstPiece(o, op);
    var ops := [op] + post;
    assert ops[0] == op && ops[1..] == post;
    assert Run(o, ops) == Run(Step(o, op), post);
    LaterWire(Step(o, op), post);
    JoinFirst(Render(op.first, Block(o, op)), op.body, Bodies(Step(o, op), post));
  }

  lemma JoinFirst(block: string, body: string, bodies: seq<string>)
    ensures IncomingHeaders.Join([block + body] + bodies) == block + IncomingHeaders.Join([body] + bodies)
  {
    assert ([block + body] + bodies)[1..] == bodies && ([body] + bodies)[1..] == bodies;
    assert (block + body) + IncomingHeaders.Join(bodies) == block + (body + IncomingHeaders.Join(bodies));
  }

  /** Over any run the bytes sent are nothing, or one header block and then all pieces of the body. */
  lemma MessageShape(chunked: bool, ops: seq<Op>)
    ensures var i, sent := FirstSend(ops), IncomingHeaders.Join(Run(Initial(chunked), ops).wire);
      if i == |ops| then sent == "" && Bodies(Initial(chunked), ops) == []
      else
        && sent == Render(ops[i].first, SentHeaders(chunked, ops)) + IncomingHeaders.Join(Bodies(Initial(chunked), ops))
        && Bodies(Initial(chunked), ops) != []
  {
    hide Run, Bodies, Render, SentHeaders, IncomingHeaders.Join, Initial, FirstSend;
    if FirstSend(ops) == |ops| {
      NothingSent(chunked, ops);
    } else {
      SomethingSent(chunked, ops);
    }
  }

  lemma NothingSent(chunked: bool, ops: seq<Op>)
    requires FirstSend(ops) == |ops|
    ensures Run(Initial(chunked), ops).wire == [] && Bodies(Initial(chunked), ops) == []
    ensures IncomingHeaders.Join([]) == ""
  {
    InitialValid(chunked);
    SettingsOnly(Initial(chunked), ops);
    NoBodies(Initial(chunked), ops);
  }

  lemma SomethingSent(chunked: bool, ops: seq<Op>)
    requires FirstSend(ops) < |ops|
    ensures Bodies(Initial(chunked), ops) != []
    ensures IncomingHeaders.Join(Run(Initial(chunked), ops).wire) ==
      Render(ops[FirstSend(ops)].first, SentHeaders(chunked, ops)) + IncomingHeaders.Join(Bodies(Initial(chunked), ops))
  {
    hide *;
    var i := FirstSend(ops);
    var pre, op, post := ops[..i], ops[i], ops[i + 1..];
    FirstSettings(ops);
    SettingsDone(chunked, pre);
    SplitAt(ops, i);
    ShapeAfter(Initial(chunked), pre, op, post);
    SentHeadersIs(chunked, ops);
  }

  lemma SplitAt(ops: seq<Op>, i: nat)
    requires i < |ops|
    ensures ops == ops[..i] + ([ops[i]] + ops[i + 1..])
  {
  }

  lemma FirstSettings(ops: seq<Op>)
    ensures Settings(ops[..FirstSend(ops)])
  {
  }

  lemma SentHeadersIs(chunked: bool, ops: seq<Op>)
    requires FirstSend(ops) < |ops|
    ensures var i := FirstSend(ops); SentHeaders(chunked, ops) == Block(Run(Initial(chunked), ops[..i]), ops[i])
  {
  }

  lemma SettingsDone(chunked: bool, pre: seq<Op>)
    requires Settings(pre)
    ensures var o := Run(Initial(chunked), pre); Valid(o) && !o.headerSent
    ensures Bodies(Initial(chunked), pre) == []
  {
    InitialValid(chunked);
    SettingsOnly(Initial(chunked), pre);
    NoBodies(Initial(chunked), pre);
  }

  lemma ShapeAfter(start: State, pre: seq<Op>, op: Op, post: seq<Op>)
    requires var o := Run(start, pre); Valid(o) && !o.headerSent && Sends(op)
    requires Bodies(start, pre) == []
    ensures var ops := pre + ([op] + post);
      && Bodies(start, ops) != []
      && IncomingHeaders.Join(Run(start, ops).wire) ==
           Render(op.first, Block(Run(start, pre), op)) + IncomingHeaders.Join(Bodies(start, ops))
  {
    hide Run, Bodies, Render, IncomingHeaders.Join, Block, Step, Valid;
    RunAppend(start, pre, [op] + post);
    BodiesAppend(start, pre, [op] + post);
    ShapeFrom(Run(start, pre), op, post);
    var bodies := Bodies(Run(start, pre), [op] + post);
    assert [] + bodies == bodies;
  }

  // ---------- which pieces are sent ----------

  /** The pieces up to the one that ends the message. */
  function UpToEnd(ops: seq<Op>): seq<string> {
    if ops == [] then []
    else
      match ops[0]
      case Write(_, body) => [body] + UpToEnd(ops[1..])
      case End(_, body) => [body]
      case _ => UpToEnd(ops[1..])
  }

  /** A message that is open is written until it is ended, and no further. */
  lemma {:induction false} OpenSends(o: State, ops: seq<Op>)
    requires o.headerSent && !o.closed && !o.last
    ensures Bodies(o, ops) == UpToEnd(ops)
    decreases |ops|
  {
    if ops != [] {
      var o' := Step(o, ops[0]);
      OpenStep(o, ops[0]);
      hide Step;
      if ops[0].End? {
        ClosedIsFinal(o', ops[1..]);
      } else {
        OpenSends(o', ops[1..]);
      }
    }
  }

  lemma OpenStep(o: State, op: Op)
    requires o.headerSent && !o.closed && !o.last
    ensures Accepted(o, op) && Step(o, op).headerSent
    ensures if op.End? then Step(o, op).closed else !Step(o, op).closed && !Step(o, op).last
  {
    hide Put, Prepared, Render, AutoLength;
  }

  /**
   What is sent of the body, by the calls alone: the first piece, and with it all pieces up
   to the end, unless it ends the message itself or its length is taken for that of the
   whole body.
   */
  lemma PiecesSent(chunked: bool, pre: seq<Op>, op: Op, post: seq<Op>)
    requires Settings(pre) && Sends(op)
    ensures Bodies(Initial(chunked), pre + ([op] + post)) ==
      [op.body] + if op.End? || (!chunked && LastSet(pre, CONTENT_LENGTH).None?) then [] else UpToEnd(post)
  {
    hide Bodies, Run, Settings, LastSet, UpToEnd, LowerAll, Valid, Get;
    var o := Run(Initial(chunked), pre);
    SettingsDone(chunked, pre);
    NamesDiffer();
    SettingsTold(chunked, pre, CONTENT_LENGTH);
    BodiesAppend(Initial(chunked), pre, [op] + post);
    ShapeFrom(o, op, post);
    FirstCloses(o, op);
    hide Step;
    if op.End? || (!chunked && LastSet(pre, CONTENT_LENGTH).None?) {
      ClosedIsFinal(Step(o, op), post);
    } else {
      OpenSends(Step(o, op), post);
    }
    assert [] + Bodies(o, [op] + post) == Bodies(o, [op] + post);
  }

  lemma FirstCloses(o: State, op: Op)
    requires Valid(o) && !o.headerSent && Sends(op) && !o.last
    ensures Step(o, op).headerSent
    ensures Step(o, op).closed <==> op.End? || (!o.chunked && Get(o.headers, CONTENT_LENGTH).None?)
    ensures op.Write? ==> !Step(o, op).last
  {
    hide Put, Get, Prepared, Render, Sorted;
  }

  // ---------- reading the block back ----------

  lemma {:induction false} LinesAppend(a: Headers, b: Headers)
    ensures Lines(a + b) == Lines(a) + Lines(b)
    decreases |a|
  {
    if a == [] {
      assert a + b == b;
    } else {
      assert (a + b)[0] == a[0] && (a + b)[1..] == a[1..] + b;
      LinesAppend(a[1..], b);
    }
  }

  /** Every header has a line of its own, between the first line and the empty one. */
  lemma LineIsPrinted(first: string, m: Headers, k: nat)
    requires k < |m|
    ensures Render(first, m) ==
      first + Lines(m[..k]) + (m[k].name + ": " + m[k].value + "\r\n") + Lines(m[k + 1..]) + "\r\n"
  {
    assert m == m[..k] + ([m[k]] + m[k + 1..]);
    LinesAppend(m[..k], [m[k]] + m[k + 1..]);
    LinesAppend([m[k]], m[k + 1..]);
    OneLine(m[k]);
    hide Lines;
  }

  lemma OneLine(h: Header)
    ensures Lines([h]) == h.name + ": " + h.value + "\r\n"
  {
    assert [h][1..] == [];
  }

  /** A colon ends a name and a carriage return a value, so neither may hold them; a name may hold neither. */
  predicate Clean(h: Header) {
    ':' !in h.name && '\r' !in h.name && '\r' !in h.value
  }

  function Until(s: string, c: char): (i: nat)
    ensures i <= |s| && c !in s[..i] && (i < |s| ==> s[i] == c)
  {
    if s == "" || s[0] == c then 0 else
    var i := 1 + Until(s[1..], c);
    assert s[..i] == [s[0]] + s[1..][..i - 1];
    i
  }

  /** One line, and what comes after it. */
  function ReadLine(s: string): (r: Option<(Header, string)>)
    ensures r.Some? ==> |r.value.1| < |s|
  {
    var i := Until(s, ':');
    if i + 2 > |s| || s[i + 1] != ' ' then None else
    var t := s[i + 2..];
    var j := Until(t, '\r');
    if j + 2 > |t| || t[j + 1] != '\n' then None else
    Some((Header(s[..i], t[..j]), t[j + 2..]))
  }

  /** The headers up to the empty line, and what comes after it. */
  function ReadLines(s: string): Option<(Headers, string)>
    decreases |s|
  {
    if "\r\n" <= s then Some(([], s[2..]))
    else
      match ReadLine(s)
      case None => None
      case Some((h, t)) =>
        match ReadLines(t)
        case None => None
        case Some((m, rest)) => Some(([h] + m, rest))
  }

  lemma {:induction false} UntilIs(s: string, c: char, t: string)
    requires c !in s
    ensures Until(s + [c] + t, c) == |s|
  {
    if s != "" {
      assert (s + [c] + t)[1..] == s[1..] + [c] + t;
      UntilIs(s[1..], c, t);
    }
  }

  lemma LineSplits(h: Header, s: string)
    ensures h.name + ": " + h.value + "\r\n" + s == h.name + [':'] + (" " + (h.value + "\r\n" + s))
    ensures h.value + "\r\n" + s == h.value + ['\r'] + ("\n" + s)
  {
  }

  lemma LineReadsBack(h: Header, s: string)
    requires Clean(h)
    ensures var line := h.name + ": " + h.value + "\r\n" + s;
      !("\r\n" <= line) && ReadLine(line) == Some((h, s))
  {
    hide Until, ReadLine;
    var line := h.name + ": " + h.value + "\r\n" + s;
    var t := h.value + "\r\n" + s;
    LineSplits(h, s);
    UntilIs(h.name, ':', " " + t);
    UntilIs(h.value, '\r', "\n" + s);
    NotBlank(h, " " + t);
    LineParts(h, s, line, t);
    ReadsOne(line, |h.name|, t, |h.value|, s, h);
  }

  lemma ReadsOne(line: string, i: nat, t: string, j: nat, s: string, h: Header)
    requires Until(line, ':') == i && i + 2 <= |line| && line[i + 1] == ' ' && line[i + 2..] == t
    requires Until(t, '\r') == j && j + 2 <= |t| && t[j + 1] == '\n' && t[j + 2..] == s
    requires line[..i] == h.name && t[..j] == h.value
    ensures ReadLine(line) == Some((h, s))
  {
    hide Until;
  }

  lemma NotBlank(h: Header, t: string)
    requires Clean(h)
    ensures !("\r\n" <= h.name + [':'] + t)
  {
    var line := h.name + [':'] + t;
    assert line[0] == if h.name == "" then ':' else h.name[0];
  }

  lemma LineParts(h: Header, s: string, line: string, t: string)
    requires line == h.name + ": " + h.value + "\r\n" + s && t == h.value + "\r\n" + s
    ensures |line| == |h.name| + 2 + |t| && |t| == |h.value| + 2 + |s|
    ensures line[..|h.name|] == h.name && line[|h.name| + 1] == ' ' && line[|h.name| + 2..] == t
    ensures t[..|h.value|] == h.value && t[|h.value| + 1] == '\n' && t[|h.value| + 2..] == s
  {
  }

  lemma LinesStep(line: string, h: Header, s: string)
    requires !("\r\n" <= line) && ReadLine(line) == Some((h, s))
    ensures ReadLines(line) == match ReadLines(s) { case None => None case Some((m, rest)) => Some(([h] + m, rest)) }
  {
    hide ReadLine;
  }

  /** A receiver can tell the block from the body: it reads the very headers, and the body is what is left. */
  lemma {:induction false} BlockReadsBack(m: Headers, body: string)
    requires forall i :: 0 <= i < |m| ==> Clean(m[i])
    ensures ReadLines(Lines(m) + "\r\n" + body) == Some((m, body))
  {
    hide Clean, ReadLines, ReadLine;
    if m == [] {
      NoLines(body);
    } else {
      var rest := Lines(m[1..]) + "\r\n" + body;
      BlockReadsBack(m[1..], body);
      LineReadsBack(m[0], rest);
      LinesStep(m[0].name + ": " + m[0].value + "\r\n" + rest, m[0], rest);
      FirstLine(m, body);
      assert [m[0]] + m[1..] == m;
    }
  }

  lemma NoLines(body: string)
    ensures ReadLines(Lines([]) + "\r\n" + body) == Some(([], body))
  {
    assert Lines([]) + "\r\n" + body == "\r\n" + body;
  }

  lemma FirstLine(m: Headers, body: string)
    requires m != []
    ensures Lines(m) + "\r\n" + body == m[0].name + ": " + m[0].value + "\r\n" + (Lines(m[1..]) + "\r\n" + body)
  {
  }

  // ---------- what the block says about the body ----------

  lemma LowerIs(s: string, t: string)
    requires |s| == |t| && forall i :: 0 <= i < |s| ==> Lower(s[i]) == t[i]
    ensures LowerAll(s) == t
  {
    hide LowerAll;
  }

  lemma LowerNames()
    ensures LowerAll(CONTENT_TYPE) == "content-type" && LowerAll(CONTENT_LENGTH) == "content-length"
    ensures LowerAll(CONNECTION) == "connection" && LowerAll(TRANSFER_ENCODING) == "transfer-encoding"
  {
    hide *;
    LowerType();
    LowerLength();
    LowerConnection();
    LowerEncoding();
  }

  lemma LowerType()
    ensures LowerAll(CONTENT_TYPE) == "content-type"
  {
    hide LowerAll;
    LowerIs(CONTENT_TYPE, "content-type");
  }

  lemma LowerLength()
    ensures LowerAll(CONTENT_LENGTH) == "content-length"
  {
    hide LowerAll;
    LowerIs(CONTENT_LENGTH, "content-length");
  }

  lemma LowerConnection()
    ensures LowerAll(CONNECTION) == "connection"
  {
    hide LowerAll;
    LowerIs(CONNECTION, "connection");
  }

  lemma LowerEncoding()
    ensures LowerAll(TRANSFER_ENCODING) == "transfer-encoding"
  {
    hide LowerAll;
    LowerIs(TRANSFER_ENCODING, "transfer-encoding");
  }

  lemma NamesDiffer()
    ensures LowerAll(CONTENT_LENGTH) != LowerAll(CONNECTION) && LowerAll(CONTENT_LENGTH) != LowerAll(TRANSFER_ENCODING)
    ensures LowerAll(CONNECTION) != LowerAll(TRANSFER_ENCODING)
    ensures LowerAll(CONTENT_TYPE) != LowerAll(CONTENT_LENGTH) && LowerAll(CONTENT_TYPE) != LowerAll(TRANSFER_ENCODING)
  {
    hide *;
    LowerNames();
  }

  lemma InitialUnset(chunked: bool, name: string)
    requires LowerAll(CONTENT_TYPE) != LowerAll(name)
    ensures Get(Initial(chunked).headers, name) == None
  {
    EquivalentIsSameLower(CONTENT_TYPE, name);
    hide Equivalent, LowerAll;
    var m := Initial(chunked).headers;
    assert m[1..] == [];
  }

  lemma PreparedHeaders(o: State, body: string)
    requires Sorted(o.headers)
    ensures var h := Prepared(o, body);
      && Get(h, CONTENT_LENGTH) == (if AutoLength(o) then Some(Decimal(|body|)) else Get(o.headers, CONTENT_LENGTH))
      && Get(h, TRANSFER_ENCODING) == (if o.chunked && !o.last then Some("chunked") else Get(o.headers,
        TRANSFER_ENCODING))
      && Get(h, CONNECTION) == Some(if o.keepAlive then "keep-alive" else "close")
  {
    NamesDiffer();
    hide LowerAll, Put, Get, Sorted, Decimal;
    var h1 := if AutoLength(o) then Put(o.headers, CONTENT_LENGTH, Decimal(|body|)) else o.headers;
    var connection := if o.keepAlive then "keep-alive" else "close";
    var h2 := Put(h1, CONNECTION, connection);
    PutSorted(o.headers, CONTENT_LENGTH, Decimal(|body|));
    PutSorted(h1, CONNECTION, connection);
    PreparedGet(o.headers, h1, h2, AutoLength(o), body, connection, CONTENT_LENGTH);
    PreparedGet(o.headers, h1, h2, AutoLength(o), body, connection, TRANSFER_ENCODING);
    PreparedGet(o.headers, h1, h2, AutoLength(o), body, connection, CONNECTION);
  }

  lemma PreparedGet(h: Headers, h1: Headers, h2: Headers, auto: bool, body: string, connection: string, name: string)
    requires Sorted(h) && Sorted(h1) && Sorted(h2)
    requires h1 == if auto then Put(h, CONTENT_LENGTH, Decimal(|body|)) else h
    requires h2 == Put(h1, CONNECTION, connection)
    ensures Get(h2, name) ==
      if LowerAll(name) == LowerAll(CONNECTION) then Some(connection)
      else if auto && LowerAll(name) == LowerAll(CONTENT_LENGTH) then Some(Decimal(|body|))
      else Get(h, name)
    ensures Get(Put(h2, TRANSFER_ENCODING, "chunked"), name) ==
      if LowerAll(name) == LowerAll(TRANSFER_ENCODING) then Some("chunked") else Get(h2, name)
  {
    hide LowerAll, Put, Get, Sorted, Decimal;
    PutThenGet(h, CONTENT_LENGTH, Decimal(|body|), name);
    PutThenGet(h1, CONNECTION, connection, name);
    PutThenGet(h2, TRANSFER_ENCODING, "chunked", name);
  }

  lemma InitialHeaders(chunked: bool, name: string)
    ensures Get(Initial(chunked).headers, name) ==
      if LowerAll(name) == LowerAll(CONTENT_TYPE) then Some("text/html") else None
  {
    EquivalentIsSameLower(CONTENT_TYPE, name);
    hide Equivalent, LowerAll;
    var m := Initial(chunked).headers;
    assert m[1..] == [];
  }

  /** The whole block by what the caller has set before: its own values stand, except for three headers. */
  lemma BlockSaysLastSettings(chunked: bool, pre: seq<Op>, op: Op, name: string)
    requires Settings(pre) && Sends(op)
    ensures Get(Block(Run(Initial(chunked), pre), op), name) ==
      if LowerAll(name) == "connection" then
        Some(if LastKeepAlive(pre, true) then "keep-alive" else "close")
      else if LowerAll(name) == "transfer-encoding" && chunked && op.Write? then
        Some("chunked")
      else if LastSet(pre, name).Some? then
        LastSet(pre, name)
      else if LowerAll(name) == "content-length" && !(chunked && op.Write?) then
        Some(Decimal(|op.body|))
      else if LowerAll(name) == "content-type" then
        Some("text/html")
      else None
  {
    hide *;
    LowerNames();
    SettingsTold(chunked, pre, name);
    SettingsTold(chunked, pre, CONTENT_LENGTH);
    NamesDiffer();
    if LowerAll(name) == LowerAll(CONTENT_LENGTH) {
      SameName(pre, name, CONTENT_LENGTH);
    }
    BlockSays(Run(Initial(chunked), pre), op, name);
  }

  lemma SettingsTold(chunked: bool, pre: seq<Op>, name: string)
    requires Settings(pre)
    ensures var o := Run(Initial(chunked), pre);
      && Sorted(o.headers) && o.chunked == chunked && !o.last && o.keepAlive == LastKeepAlive(pre, true)
      && Get(o.headers, name) ==
           if LastSet(pre, name).Some? then LastSet(pre, name)
           else if LowerAll(name) == LowerAll(CONTENT_TYPE) then Some("text/html") else None
  {
    InitialValid(chunked);
    hide Run, Get, LowerAll, Settings, LastSet, LastKeepAlive, Sorted;
    SettingsOnly(Initial(chunked), pre);
    SettingsLast(Initial(chunked), pre, name);
    InitialHeaders(chunked, name);
  }

  lemma BlockSays(o: State, op: Op, name: string)
    requires Sorted(o.headers) && !o.last && Sends(op)
    ensures Get(Block(o, op), name) ==
      if LowerAll(name) == "transfer-encoding" && o.chunked && op.Write? then Some("chunked")
      else if LowerAll(name) == "connection" then Some(if o.keepAlive then "keep-alive" else "close")
      else if LowerAll(name) == "content-length" && !(o.chunked && op.Write?) && Get(o.headers, CONTENT_LENGTH).None?
      then Some(Decimal(|op.body|))
      else Get(o.headers, name)
  {
    hide LowerAll, Get, Sorted, Decimal, Prepared;
    LowerNames();
    PreparedSays(Ready(o, op), op.body, name);
  }

  lemma {:induction false} SameName(ops: seq<Op>, name: string, name': string)
    requires LowerAll(name) == LowerAll(name')
    ensures LastSet(ops, name) == LastSet(ops, name')
  {
    hide LowerAll;
    if ops != [] {
      SameName(ops[1..], name, name');
    }
  }

  lemma PreparedSays(o: State, body: string, name: string)
    requires Sorted(o.headers)
    ensures Get(Prepared(o, body), name) ==
      if LowerAll(name) == LowerAll(TRANSFER_ENCODING) && o.chunked && !o.last then Some("chunked")
      else if LowerAll(name) == LowerAll(CONNECTION) then Some(if o.keepAlive then "keep-alive" else "close")
      else if LowerAll(name) == LowerAll(CONTENT_LENGTH) && AutoLength(o) then Some(Decimal(|body|))
      else Get(o.headers, name)
  {
    hide LowerAll, Put, Get, Sorted, Decimal, AutoLength;
    var h1 := if AutoLength(o) then Put(o.headers, CONTENT_LENGTH, Decimal(|body|)) else o.headers;
    var connection := if o.keepAlive then "keep-alive" else "close";
    var h2 := Put(h1, CONNECTION, connection);
    PutSorted(o.headers, CONTENT_LENGTH, Decimal(|body|));
    PutSorted(h1, CONNECTION, connection);
    PreparedGet(o.headers, h1, h2, AutoLength(o), body, connection, name);
  }

  /**
   The block carries exactly one of the two headers that delimit the body, exactly when
   the caller has not set the one that is not given automatically.
   */
  lemma ExactlyOneFraming(chunked: bool, pre: seq<Op>, op: Op)
    requires Settings(pre) && Sends(op)
    ensures var h := Block(Run(Initial(chunked), pre), op);
      (Get(h, CONTENT_LENGTH).Some? != Get(h, TRANSFER_ENCODING).Some?) <==>
      if chunked && op.Write? then !CallerSet(pre, CONTENT_LENGTH) else !CallerSet(pre, TRANSFER_ENCODING)
  {
    InitialValid(chunked);
    NamesDiffer();
    var o := Run(Initial(chunked), pre);
    SettingsOnly(Initial(chunked), pre);
    hide LowerAll, Run, Get, Prepared, CallerSet, Sorted;
    InitialUnset(chunked, CONTENT_LENGTH);
    InitialUnset(chunked, TRANSFER_ENCODING);
    SettingsSet(Initial(chunked), pre, CONTENT_LENGTH);
    SettingsSet(Initial(chunked), pre, TRANSFER_ENCODING);
    PreparedHeaders(Ready(o, op), op.body);
  }

  /** A length that is given automatically is the length of all that the run sends of the body. */
  lemma AutomaticLengthIsExact(chunked: bool, pre: seq<Op>, op: Op, post: seq<Op>)
    requires Settings(pre) && Sends(op)
    requires !(chunked && op.Write?) && !CallerSet(pre, CONTENT_LENGTH)
    ensures var o := Run(Initial(chunked), pre);
      && Get(Block(o, op), CONTENT_LENGTH).Some?
      && Number(Get(Block(o, op), CONTENT_LENGTH).value) == |IncomingHeaders.Join([op.body] + Bodies(Step(o, op),
        post))|
  {
    hide LowerAll, Run, Get, Prepared, Block, CallerSet, Sorted, Decimal, Number, Step, Bodies, Settings, Valid;
    InitialValid(chunked);
    NamesDiffer();
    var o := Run(Initial(chunked), pre);
    SettingsOnly(Initial(chunked), pre);
    InitialUnset(chunked, CONTENT_LENGTH);
    SettingsSet(Initial(chunked), pre, CONTENT_LENGTH);
    AutomaticBlock(o, op);
    AutomaticBody(o, op, post);
  }

  lemma AutomaticBlock(o: State, op: Op)
    requires Valid(o) && Sends(op) && AutoLength(Ready(o, op))
    ensures Get(Block(o, op), CONTENT_LENGTH).Some?
    ensures Number(Get(Block(o, op), CONTENT_LENGTH).value) == |op.body|
  {
    hide Get, Prepared, Sorted, Decimal, Number;
    PreparedHeaders(Ready(o, op), op.body);
    DecimalDenotes(|op.body|);
  }

  lemma AutomaticBody(o: State, op: Op, post: seq<Op>)
    requires Valid(o) && !o.headerSent && Sends(op) && AutoLength(Ready(o, op))
    ensures IncomingHeaders.Join([op.body] + Bodies(Step(o, op), post)) == op.body
  {
    hide Step, Bodies, Get, Sorted;
    FirstPiece(o, op);
    ClosedIsFinal(Step(o, op), post);
    assert ([op.body] + [])[1..] == [] && op.body + "" == op.body;
  }

  /** A caller that sets Transfer-Encoding and ends the message at once sends both headers. */
  lemma EndWithEncoding(chunked: bool, first: string, body: string)
    ensures var h := SentHeaders(chunked, [SetHeader(TRANSFER_ENCODING, "chunked"), End(first, body)]);
      Get(h, CONTENT_LENGTH).Some? && Get(h, TRANSFER_ENCODING).Some?
  {
    hide LowerAll, Run, Get, Prepared, Block, Sorted, Settings, Valid;
    var pre := [SetHeader(TRANSFER_ENCODING, "chunked")];
    var ops := pre + [End(first, body)];
    assert ops == [SetHeader(TRANSFER_ENCODING, "chunked"), End(first, body)] && ops[..1] == pre;
    assert !Sends(ops[0]) && Sends(ops[1]) && FirstSend(ops[1..]) == 0;
    OneSetting(pre[0]);
    InitialValid(chunked);
    SettingsOnly(Initial(chunked), pre);
    SettingsSet(Initial(chunked), pre, TRANSFER_ENCODING);
    EndedHeaders(Run(Initial(chunked), pre), first, body);
  }

  lemma EndedHeaders(o: State, first: string, body: string)
    requires Valid(o) && Get(o.headers, TRANSFER_ENCODING).Some?
    ensures var h := Block(o, End(first, body)); Get(h, CONTENT_LENGTH).Some? && Get(h, TRANSFER_ENCODING).Some?
  {
    hide Get, Prepared, Sorted;
    PreparedHeaders(Ready(o, End(first, body)), body);
  }

  /** The other branch: a kind of message that writes in pieces, and whose caller gives the length. */
  lemma ChunkedWithLength()
    ensures var h := Block(Run(Initial(true), [SetHeader(CONTENT_LENGTH, "3")]), Write("", "abc"));
      Get(h, CONTENT_LENGTH).Some? && Get(h, TRANSFER_ENCODING).Some?
  {
    hide LowerAll, Run, Get, Prepared, Block, Sorted, Settings, Valid;
    var pre := [SetHeader(CONTENT_LENGTH, "3")];
    OneSetting(pre[0]);
    InitialValid(true);
    SettingsOnly(Initial(true), pre);
    SettingsSet(Initial(true), pre, CONTENT_LENGTH);
    BothHeaders(Run(Initial(true), pre), "", "abc");
  }

  /** A response without content announces that its connection closes; any other does as the flag says. */
  lemma NoContentCloses(pre: seq<Op>, statusCode: nat, op: Op)
    requires Settings(pre) && Sends(op)
    ensures Get(Block(PreparedFor(Run(Initial(false), pre), statusCode), op), CONNECTION) ==
      Some(if LastKeepAlive(pre, true) && statusCode != 204 && statusCode != 304 then "keep-alive" else "close")
  {
    var o := Run(Initial(false), pre);
    hide *;
    SettingsDone(false, pre);
    SettingsTold(false, pre, CONNECTION);
    ConnectionSays(o, statusCode, op);
  }

  lemma ConnectionSays(o: State, statusCode: nat, op: Op)
    requires Valid(o) && !o.headerSent && Sends(op)
    ensures Get(Block(PreparedFor(o, statusCode), op), CONNECTION) ==
      Some(if o.keepAlive && statusCode != 204 && statusCode != 304 then "keep-alive" else "close")
  {
    hide Get, Prepared, Sorted;
    PreparedHeaders(Ready(PreparedFor(o, statusCode), op), op.body);
  }

  lemma OneSetting(op: Op)
    requires op.SetHeader?
    ensures Settings([op]) && CallerSet([op], op.name)
  {
    assert SetBy([op][0], op.name);
  }

  lemma BothHeaders(o: State, first: string, body: string)
    requires Valid(o) && o.chunked && !o.last && Get(o.headers, CONTENT_LENGTH).Some?
    ensures var h := Block(o, Write(first, body)); Get(h, CONTENT_LENGTH).Some? && Get(h, TRANSFER_ENCODING).Some?
  {
    hide Get, Prepared, Sorted;
    PreparedHeaders(o, body);
  }

  // ---------- the other end ----------

  lemma {:induction false} PutLast(m: Headers, h: Header)
    requires Sorted(m + [h])
    ensures Put(m, h.name, h.value) == m + [h]
    decreases |m|
  {
    if m != [] {
      assert (m + [h])[1..] == m[1..] + [h];
      SortedTail(m + [h]);
      assert Less((m + [h])[0].name, (m + [h])[|m|].name);
      hide Less;
      PutLast(m[1..], h);
      assert [m[0]] + (m[1..] + [h]) == m + [h];
    }
  }

  lemma {:induction false} FoldSorted(m: Headers, rest: Headers)
    requires Sorted(m + rest) && (forall i :: 0 <= i < |rest| ==> rest[i].name != "")
    ensures IncomingHeaders.Fold(m, rest) == m + rest
    decreases |rest|
  {
    if rest == [] {
      assert m + rest == m;
    } else {
      assert forall i :: 0 <= i < |rest[1..]| ==> rest[1..][i] == rest[i + 1];
      SortedFront(m, rest);
      assert (m + [rest[0]]) + rest[1..] == m + rest;
      hide Sorted, Put;
      PutLast(m, rest[0]);
      FoldSorted(m + [rest[0]], rest[1..]);
    }
  }

  lemma SortedFront(m: Headers, rest: Headers)
    requires Sorted(m + rest) && rest != []
    ensures Sorted(m + [rest[0]])
  {
    hide Less;
    var r := m + [rest[0]];
    assert forall i :: 0 <= i < |r| ==> r[i] == (m + rest)[i];
  }

  /** A receiver that is given the headers of a block, in any fragments, ends up with the same map. */
  lemma ReceivedAsSent(chunked: bool, pre: seq<Op>, op: Op, fs: seq<IncomingHeaders.Fragments>)
    requires Settings(pre) && Sends(op) && IncomingHeaders.Delivered(fs)
    requires IncomingHeaders.WholeAll(fs) == Block(Run(Initial(chunked), pre), op)
    requires forall h :: h in IncomingHeaders.WholeAll(fs) ==> h.name != ""
    ensures IncomingHeaders.Stored(IncomingHeaders.Run(IncomingHeaders.FRESH, IncomingHeaders.Events(fs))) ==
      Block(Run(Initial(chunked), pre), op)
  {
    InitialValid(chunked);
    SettingsOnly(Initial(chunked), pre);
    var o := Run(Initial(chunked), pre);
    hide Run, Prepared;
    PreparedSorted(Ready(o, op), op.body);
    var hs := IncomingHeaders.WholeAll(fs);
    IncomingHeaders.FragmentationDoesNotMatter(fs, fs);
    assert [] + hs == hs;
    FoldSorted([], hs);
  }
}