/** `csv_test_parser`, the callback the tests drive the parser with. It
    records the events as a bracketed string (`{` per row start, `[bytes]`
    per field, `}` per row end), counts the errors, and can be scripted to
    stop, abort or throw at its `i`-th call. Each handler records its event
    before it consults the script, which is what makes the resumption tests
    sensitive to an event delivered twice. */
module Recorder {
  import opened Signals
  import opened Csv

  /** `what_to_do`. */
  datatype Response = Exception | StopNow | AbortNow

  /** What a handler gives back: a command, or a thrown exception. */
  datatype Reply = Answer(cmd: Command) | Throw

  /** `return_helper()` when `calls` calls were made before this one. */
  function HelperReply(calls: int, throwAt: int, response: Response): Reply {
    if calls == throwAt then
      match response
      case StopNow => Answer(FromState(Stop))
      case AbortNow => Answer(FromState(Abort))
      case Exception => Throw
    else Answer(FromState(KeepGoing))
  }

  /** The reply to event `e`: `error` always answers `abort`, unless its
      helper throws. */
  function ReplyTo(e: Event, calls: int, throwAt: int, response: Response): Reply {
    var helper := HelperReply(calls, throwAt, response);
    if e.Raise? then (if helper.Throw? then Throw else Answer(FromState(Abort))) else helper
  }

  /** What an event adds to `xml`. */
  function Render(e: Event): seq<char> {
    match e
    case StartRow => "{"
    case Field(bytes) => "[" + bytes + "]"
    case EndRow => "}"
    case Raise(_) => ""
  }

  /** The record of a sequence of events. */
  function Xml(es: seq<Event>): seq<char> {
    if es == [] then [] else Render(es[0]) + Xml(es[1..])
  }

  /** The number of `error` events. */
  function ErrorCount(es: seq<Event>): nat {
    if es == [] then 0 else (if es[0].Raise? then 1 else 0) + ErrorCount(es[1..])
  }

  /** Recording is compositional: the record of two runs of events is the
      two records one after the other. */
  lemma {:induction false} XmlAppend(a: seq<Event>, b: seq<Event>)
    ensures Xml(a + b) == Xml(a) + Xml(b)
  {
    if a == [] {
      assert a + b == b;
    } else {
      var r := Render(a[0]);
      assert (a + b)[0] == a[0];
      assert (a + b)[1..] == a[1..] + b;
      assert Xml(a + b) == r + Xml(a[1..] + b);
      XmlAppend(a[1..], b);
      assert r + (Xml(a[1..]) + Xml(b)) == (r + Xml(a[1..])) + Xml(b);
    }
  }

  /** The error count of two runs of events is the sum of their counts. */
  lemma {:induction false} ErrorCountAppend(a: seq<Event>, b: seq<Event>)
    ensures ErrorCount(a + b) == ErrorCount(a) + ErrorCount(b)
  {
    if a == [] {
      assert a + b == b;
    } else {
      assert (a + b)[0] == a[0];
      assert (a + b)[1..] == a[1..] + b;
      ErrorCountAppend(a[1..], b);
    }
  }

  /** The code of the last `error` event of `es`, or `d` if there is none. */
  function LastCode(es: seq<Event>, d: ErrorCode): ErrorCode {
    if es == [] then d else LastCode(es[1..], if es[0].Raise? then es[0].code else d)
  }

  lemma {:induction false} LastCodeAppend(a: seq<Event>, b: seq<Event>, d: ErrorCode)
    ensures LastCode(a + b, d) == LastCode(b, LastCode(a, d))
  {
    if a == [] {
      assert a + b == b;
    } else {
      assert (a + b)[0] == a[0];
      assert (a + b)[1..] == a[1..] + b;
      LastCodeAppend(a[1..], b, if a[0].Raise? then a[0].code else d);
    }
  }

  /** The record of the single-event run. */
  lemma XmlOne(e: Event, d: ErrorCode)
    ensures Xml([e]) == Render(e) && ErrorCount([e]) == if e.Raise? then 1 else 0
    ensures LastCode([e], d) == if e.Raise? then e.code else d
  {
    assert [e][1..] == [];
  }

  /** Only the scripted call can answer anything but `keep_going`, whatever
      the event, and since the call count only grows it does so at most once
      in the life of the recorder. */
  lemma AtMostOneInterruption(e: Event, f: Event, i: int, j: int, throwAt: int, response: Response)
    requires i < j
    ensures ReplyTo(e, i, throwAt, response) == Answer(FromState(KeepGoing)) || e.Raise?
      || ReplyTo(f, j, throwAt, response) == Answer(FromState(KeepGoing)) || f.Raise?
    ensures (ReplyTo(e, i, throwAt, response) == Answer(FromState(KeepGoing))) <==> (!e.Raise? && i != throwAt)
  {
  }

  /** An `error` event never lets the parser carry on. */
  lemma ErrorStops(code: ErrorCode, calls: int, throwAt: int, response: Response)
    ensures ReplyTo(Raise(code), calls, throwAt, response) in {Throw, Answer(FromState(Abort))}
    ensures ReplyTo(Raise(code), calls, throwAt, response) == Throw <==> calls == throwAt && response == Exception
  {
  }

  /** The observable fields of the recorder. */
  datatype Snapshot = Snapshot(xml: seq<char>, csvError: ErrorCode, errorCount: int,
                               throwAt: int, response: Response, functionCalls: int)

  /** The recorder after the events `es` were delivered to it, one call
      each. */
  function After(sn: Snapshot, es: seq<Event>): (r: Snapshot)
    ensures r.throwAt == sn.throwAt && r.response == sn.response
    ensures r.functionCalls == sn.functionCalls + |es|
  {
    Snapshot(sn.xml + Xml(es), LastCode(es, sn.csvError), sn.errorCount + ErrorCount(es),
             sn.throwAt, sn.response, sn.functionCalls + |es|)
  }

  /** Delivering two runs of events one after the other is delivering their
      concatenation. */
  lemma AfterAppend(sn: Snapshot, a: seq<Event>, b: seq<Event>)
    ensures After(After(sn, a), b) == After(sn, a + b)
  {
    var l, r := After(After(sn, a), b), After(sn, a + b);
    AfterXml(sn, a, b);
    ErrorCountAppend(a, b);
    LastCodeAppend(a, b, sn.csvError);
    assert l.xml == r.xml && l.errorCount == r.errorCount && l.csvError == r.csvError;
  }

  lemma AfterXml(sn: Snapshot, a: seq<Event>, b: seq<Event>)
    ensures (sn.xml + Xml(a)) + Xml(b) == sn.xml + Xml(a + b)
  {
    XmlAppend(a, b);
  }

  /** Delivering nothing changes nothing. */
  lemma AfterNil(sn: Snapshot)
    ensures After(sn, []) == sn
  {
    assert sn.xml + [] == sn.xml;
  }

  /** Once the scripted call is past, `start_row`, `field` and `end_row`
      answer `keep_going` and `error` answers `abort`. */
  lemma QuietReply(e: Event, calls: int, throwAt: int, response: Response)
    requires throwAt < calls
    ensures ReplyTo(e, calls, throwAt, response) == Answer(FromState(if e.Raise? then Abort else KeepGoing))
  {
  }

  class CsvTestParser {
    var xml: seq<char>
    var csvError: ErrorCode
    var errorCount: int
    var throwAt: int
    var response: Response
    var functionCalls: int

    function Snap(): Snapshot
      reads this
    {
      Snapshot(xml, csvError, errorCount, throwAt, response, functionCalls)
    }

    /** `csv_test_parser()`: never interrupts. Its `response` is left
        uninitialised by the source and is never read, because no call
        count equals -1; here it is `Exception`. */
    constructor()
      ensures xml == [] && csvError == NoError && errorCount == 0 && functionCalls == 0
      ensures throwAt == -1
    {
      xml, csvError, errorCount := [], NoError, 0;
      throwAt, response, functionCalls := -1, Exception, 0;
    }

    /** `csv_test_parser(what, i)`: does `what` at call number `i`. */
    constructor Scripted(what: Response, i: int)
      ensures xml == [] && csvError == NoError && errorCount == 0 && functionCalls == 0
      ensures throwAt == i && response == what
    {
      xml, csvError, errorCount := [], NoError, 0;
      throwAt, response, functionCalls := i, what, 0;
    }

    /** `return_helper()`: counts the call, then consults the script. */
    method ReturnHelper() returns (reply: Reply)
      modifies this
      ensures reply == HelperReply(old(functionCalls), throwAt, response)
      ensures functionCalls == old(functionCalls) + 1
      ensures xml == old(xml) && csvError == old(csvError) && errorCount == old(errorCount)
      ensures throwAt == old(throwAt) && response == old(response)
    {
      var hit := functionCalls == throwAt;
      functionCalls := functionCalls + 1;
      reply := Answer(FromState(KeepGoing));
      if hit {
        match response
        case StopNow => reply := Answer(FromState(Stop));
        case AbortNow => reply := Answer(FromState(Abort));
        case Exception => reply := Throw;
      }
    }

    /** The four handlers, dispatched on the event: `start_row`, `field`,
        `end_row` and `error`. */
    method Deliver(e: Event) returns (reply: Reply)
      modifies this
      ensures reply == ReplyTo(e, old(functionCalls), throwAt, response)
      ensures Snap() == After(old(Snap()), [e])
      ensures xml == old(xml) + Render(e) && functionCalls == old(functionCalls) + 1
      ensures errorCount == old(errorCount) + (if e.Raise? then 1 else 0)
      ensures csvError == if e.Raise? then e.code else old(csvError)
      ensures throwAt == old(throwAt) && response == old(response)
    {
      XmlOne(e, csvError);
      match e
      case StartRow =>
        xml := xml + "{";
        reply := ReturnHelper();
      case EndRow =>
        xml := xml + "}";
        reply := ReturnHelper();
      case Field(bytes) =>
        xml := xml + "[";
        xml := xml + bytes;
        xml := xml + "]";
        reply := ReturnHelper();
      case Raise(code) =>
        errorCount := errorCount + 1;
        csvError := code;
        var helper := ReturnHelper();
        reply := if helper.Throw? then Throw else Answer(FromState(Abort));
    }
  }
}
