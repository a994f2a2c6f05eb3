/** The CSV record dialect and the resumable state machine that decodes it.

    The dialect is section 2 of RFC 4180 with three departures, all fixed by the test suite: CRLF is
    the only record separator, a lone CR or LF inside an unquoted field is
    field data, and a record with no field at all is an error.

    The engine is an explicit state tag plus a step function. One step looks
    at most at one input symbol (a byte, or the end of the document), does at
    most one thing to the pending-field buffer and fires at most one callback
    event. A step that may fail on allocation (opening or appending to the
    buffer) never fires an event, and a step that fires an event consumes its
    byte before the callback runs, so every point between two steps is a place
    where parsing can stop and later resume. */
module Csv {

  /** The states of the parser. `EndOfField`, `EndOfLastField` and `EndOfRow`
      are the internal states that deliver an event without reading input. */
  datatype Tag =
    | Begin
    | StartOfRow
    | FirstFieldOfRecord
    | FailOnLineFeed
    | StartOfField
    | InQuotedField
    | InUnquotedField
    | InQuote
    | InNewLine
    | RequireLineFeed
    | EndOfField
    | EndOfLastField
    | EndOfRow
    | Error

  datatype ErrorCode =
    | NoError
    | MisplacedDoubleQuotes
    | TextAfterClosingQuotes
    | UnfinishedCrlf
    | NoFieldsInRecord

  /** The callback events: `start_row()`, `field(view)`, `end_row()` and
      `error(code)`. */
  datatype Event = StartRow | Field(bytes: seq<char>) | EndRow | Raise(code: ErrorCode)

  /** A parsing session as far as its future behaviour is concerned: the state
      tag and the bytes of the field being assembled. */
  datatype Config = Config(tag: Tag, pending: seq<char>)

  const Initial: Config := Config(Begin, [])

  const Comma: char := ','
  const Quote: char := '"'
  const CR: char := '\r'
  const LF: char := '\n'

  /** What a step feeds on: the next byte, or the end of the document. */
  datatype Input = Byte(b: char) | End

  /** What a step does to the field sink: nothing, `start`, `append(ch)` or
      `clear`. */
  datatype SinkOp = Hold | Open | Put(ch: char) | Reset

  /** Which event a step fires. */
  datatype Emit = Silent | EmitStartRow | EmitField | EmitEndRow | EmitError(code: ErrorCode)

  datatype Step = Step(consume: bool, op: SinkOp, emit: Emit, next: Tag)

  /** The internal states that act without reading a byte. */
  predicate Eventful(t: Tag) {
    t == EndOfField || t == EndOfLastField || t == EndOfRow
  }

  /** The states in which the field sink has been started. */
  predicate Started(t: Tag) {
    match t
    case FailOnLineFeed | InQuotedField | InUnquotedField | InQuote | InNewLine
       | RequireLineFeed | EndOfField | EndOfLastField => true
    case _ => false
  }

  /** A state the machine rests in when its input runs out. */
  predicate Stalled(t: Tag) {
    t == Error || !Eventful(t)
  }

  predicate CanStep(t: Tag, x: Input) {
    t != Error && !(t == StartOfRow && x == End)
  }

  /** Termination measure for steps that leave their byte unread. */
  function Rank(t: Tag): nat {
    match t
    case EndOfLastField => 4
    case EndOfRow => 3
    case Begin | StartOfRow | EndOfField => 2
    case FirstFieldOfRecord | StartOfField | FailOnLineFeed | InNewLine => 1
    case _ => 0
  }

  /** Termination measure for steps taken at the end of the document. */
  function EndRank(t: Tag): nat {
    match t
    case FailOnLineFeed | InNewLine | EndOfField => 4
    case InUnquotedField | InQuote | StartOfField => 3
    case EndOfLastField => 2
    case Begin | FirstFieldOfRecord | InQuotedField | RequireLineFeed | EndOfRow => 1
    case _ => 0
  }

  /** The internal states: deliver the pending field or the end of the row. */
  function Flush(t: Tag): Step
    requires Eventful(t)
  {
    match t
    case EndOfField => Step(false, Reset, EmitField, StartOfField)
    case EndOfLastField => Step(false, Reset, EmitField, EndOfRow)
    case EndOfRow => Step(false, Hold, EmitEndRow, StartOfRow)
  }

  /** Opening a field on its first byte: the byte is consumed unless it is
      ordinary data, which is read again in `InUnquotedField`. */
  function OpenField(b: char, onCR: Tag): Step {
    if b == Quote then Step(true, Open, Silent, InQuotedField)
    else if b == Comma then Step(true, Open, Silent, EndOfField)
    else if b == CR then Step(true, Open, Silent, onCR)
    else Step(false, Open, Silent, InUnquotedField)
  }

  function Fail(code: ErrorCode): Step {
    Step(true, Reset, EmitError(code), Error)
  }

  /** The transition on byte `b`. */
  function OnByte(t: Tag, b: char): Step
    requires t != Error && !Eventful(t)
  {
    match t
    case Begin | StartOfRow => Step(false, Hold, EmitStartRow, FirstFieldOfRecord)
    case FirstFieldOfRecord => OpenField(b, FailOnLineFeed)
    case StartOfField => OpenField(b, InNewLine)
    case FailOnLineFeed =>
      if b == LF then Fail(NoFieldsInRecord) else Step(false, Put(CR), Silent, InUnquotedField)
    case InNewLine =>
      if b == LF then Step(true, Hold, Silent, EndOfLastField) else Step(false, Put(CR), Silent, InUnquotedField)
    case InUnquotedField =>
      if b == Comma then Step(true, Hold, Silent, EndOfField)
      else if b == CR then Step(true, Hold, Silent, InNewLine)
      else if b == Quote then Fail(MisplacedDoubleQuotes)
      else Step(true, Put(b), Silent, InUnquotedField)
    case InQuotedField =>
      if b == Quote then Step(true, Hold, Silent, InQuote) else Step(true, Put(b), Silent, InQuotedField)
    case InQuote =>
      if b == Quote then Step(true, Put(Quote), Silent, InQuotedField)
      else if b == Comma then Step(true, Hold, Silent, EndOfField)
      else if b == CR then Step(true, Hold, Silent, RequireLineFeed)
      else Fail(TextAfterClosingQuotes)
    case RequireLineFeed =>
      if b == LF then Step(true, Hold, Silent, EndOfLastField) else Fail(UnfinishedCrlf)
  }

  /** The transition at the end of the document (`finish`). */
  function AtEnd(t: Tag): Step
    requires t != Error && t != StartOfRow && !Eventful(t)
  {
    match t
    case Begin | FirstFieldOfRecord => Step(false, Reset, EmitError(NoFieldsInRecord), Error)
    case FailOnLineFeed | InNewLine => Step(false, Put(CR), Silent, InUnquotedField)
    case StartOfField => Step(false, Open, Silent, EndOfLastField)
    case InUnquotedField | InQuote => Step(false, Hold, Silent, EndOfLastField)
    case InQuotedField => Step(false, Reset, EmitError(MisplacedDoubleQuotes), Error)
    case RequireLineFeed => Step(false, Reset, EmitError(UnfinishedCrlf), Error)
  }

  /** One step of the machine. */
  function Next(t: Tag, x: Input): Step
    requires CanStep(t, x)
  {
    if Eventful(t) then Flush(t)
    else if x.End? then AtEnd(t)
    else OnByte(t, x.b)
  }

  /** Every step makes progress: it consumes a byte, or it moves to a state
      of lower rank. Only states that read input consume. */
  lemma NextRanks(t: Tag, x: Input)
    requires CanStep(t, x)
    ensures Next(t, x).consume ==> x.Byte? && !Eventful(t)
    ensures !Next(t, x).consume && x.Byte? ==> Rank(Next(t, x).next) < Rank(t)
    ensures Eventful(t) ==> Rank(Next(t, x).next) < Rank(t)
    ensures x.End? ==> EndRank(Next(t, x).next) < EndRank(t)
  {
  }

  /** The properties of a step the resumable drivers rely on: the sink is
      started exactly in the `Started` states; `start` happens only on an
      unstarted sink and `append` only on a started one; a step that touches
      the allocator fires no event; a field is delivered from a started sink,
      which is then cleared; and the machine enters `Error` exactly when it
      reports an error, clearing the sink as it does. */
  predicate Coherent(t: Tag, st: Step) {
    && (st.op.Open? ==> !Started(t))
    && (st.op.Put? ==> Started(t))
    && (Started(st.next) <==> st.op.Open? || (Started(t) && !st.op.Reset?))
    && ((st.op.Open? || st.op.Put?) ==> st.emit.Silent?)
    && (st.emit.EmitField? ==> Started(t) && st.op.Reset?)
    && (st.next == Error <==> st.emit.EmitError?)
    && (st.emit.EmitError? ==> st.op.Reset?)
    && (st.op.Reset? ==> !st.emit.Silent?)
  }

  lemma StepContract(t: Tag, x: Input)
    requires CanStep(t, x)
    ensures Coherent(t, Next(t, x))
  {
  }

  /** The pending buffer after a step. */
  function Apply(c: Config, st: Step): Config {
    var p := match st.op
      case Hold => c.pending
      case Open => []
      case Put(ch) => c.pending + [ch]
      case Reset => [];
    Config(st.next, p)
  }

  /** The event a step delivers, if any. */
  function Emitted(c: Config, st: Step): seq<Event> {
    match st.emit
    case Silent => []
    case EmitStartRow => [StartRow]
    case EmitField => [Field(c.pending)]
    case EmitEndRow => [EndRow]
    case EmitError(code) => [Raise(code)]
  }

  /** The events delivered and the session reached. */
  datatype Trace = Trace(events: seq<Event>, final: Config)

  /** `t` with the events `e` delivered before it. */
  function Prepend(e: seq<Event>, t: Trace): Trace {
    Trace(e + t.events, t.final)
  }

  function SymbolAt(s: seq<char>): Input {
    if s == [] then End else Byte(s[0])
  }

  /** `parse` over the bytes `s` with a callback that always keeps going:
      steps until the input is exhausted in a state that needs a byte, or the
      session is in `Error`. */
  function Run(c: Config, s: seq<char>): (r: Trace)
    decreases |s|, Rank(c.tag), 1
  {
    if c.tag == Error || (!Eventful(c.tag) && s == []) then Trace([], c)
    else RunStep(c, s)
  }

  /** One step of `Run` followed by the rest of the run. */
  function RunStep(c: Config, s: seq<char>): (r: Trace)
    requires c.tag != Error && (Eventful(c.tag) || s != [])
    decreases |s|, Rank(c.tag), 0
  {
    var st := Next(c.tag, SymbolAt(s));
    NextRanks(c.tag, SymbolAt(s));
    Prepend(Emitted(c, st), Run(Apply(c, st), if st.consume then s[1..] else s))
  }

  /** `finish`: steps at the end of the document until the session is at the
      start of a row or in `Error`. */
  function Finish(c: Config): (r: Trace)
    decreases EndRank(c.tag)
  {
    if c.tag == Error || c.tag == StartOfRow then Trace([], c)
    else
      var st := Next(c.tag, End);
      NextRanks(c.tag, End);
      Prepend(Emitted(c, st), Finish(Apply(c, st)))
  }

  /** `parse` always comes to rest: with the input used up in a state that
      needs a byte, or in `Error`, which it never leaves. */
  lemma {:induction false} RunStops(c: Config, s: seq<char>)
    ensures Stalled(Run(c, s).final.tag)
    ensures c.tag == Error ==> Run(c, s) == Trace([], c)
    decreases |s|, Rank(c.tag)
  {
    if c.tag != Error && (Eventful(c.tag) || s != []) {
      var st := Next(c.tag, SymbolAt(s));
      NextRanks(c.tag, SymbolAt(s));
      RunStops(Apply(c, st), if st.consume then s[1..] else s);
    }
  }

  /** `finish` always ends at the start of a row or in `Error`. */
  lemma {:induction false} FinishEnds(c: Config)
    ensures Finish(c).final.tag == StartOfRow || Finish(c).final.tag == Error
    decreases EndRank(c.tag)
  {
    if c.tag != Error && c.tag != StartOfRow {
      NextRanks(c.tag, End);
      FinishEnds(Apply(c, Next(c.tag, End)));
    }
  }

  /** `parse` of `s` followed by `finish`. */
  function Complete(c: Config, s: seq<char>): Trace {
    var t := Run(c, s);
    Prepend(t.events, Finish(t.final))
  }

  /** A whole document: a fresh session, `parse`, then `finish`. */
  function Document(s: seq<char>): Trace {
    Complete(Initial, s)
  }

  /** The trace of running `t.final` on `s`, appended to `t`. */
  function Then(t: Trace, s: seq<char>): Trace {
    var r := Run(t.final, s);
    Trace(t.events + r.events, r.final)
  }

  /** One step of `Run`, for any session that can take one. */
  lemma RunUnfold(c: Config, s: seq<char>)
    requires c.tag != Error && (Eventful(c.tag) || s != [])
    ensures var st := Next(c.tag, SymbolAt(s));
      Run(c, s) == Prepend(Emitted(c, st), Run(Apply(c, st), if st.consume then s[1..] else s))
  {
  }

  /** Events delivered before a trace are still delivered first once a
      further chunk is parsed after it. */
  lemma ThenPrepend(e: seq<Event>, t: Trace, b: seq<char>)
    ensures Then(Prepend(e, t), b) == Prepend(e, Then(t, b))
  {
    var r := Run(t.final, b);
    assert (e + t.events) + r.events == e + (t.events + r.events);
  }

  /** Chunk-boundary transparency: parsing `a` and then `b` in a second call
      on the same session delivers the same events and reaches the same
      session as parsing `a + b` in one call. */
  lemma {:induction false} RunAppend(c: Config, a: seq<char>, b: seq<char>)
    ensures Run(c, a + b) == Then(Run(c, a), b)
    decreases |a|, Rank(c.tag)
  {
    if c.tag == Error {
    } else if !Eventful(c.tag) && a == [] {
      assert a + b == b;
    } else {
      var st := Next(c.tag, SymbolAt(a));
      assert Next(c.tag, SymbolAt(a + b)) == st by {
        if a != [] { assert (a + b)[0] == a[0]; }
      }
      NextRanks(c.tag, SymbolAt(a));
      var a' := if st.consume then a[1..] else a;
      assert (if st.consume then (a + b)[1..] else a + b) == a' + b;
      RunUnfold(c, a + b);
      RunUnfold(c, a);
      RunAppend(Apply(c, st), a', b);
      ThenPrepend(Emitted(c, st), Run(Apply(c, st), a'), b);
    }
  }

  /** One step on a leading byte, stated for an arbitrary remainder. */
  lemma RunByte(c: Config, x: char, s: seq<char>)
    requires c.tag != Error && !Eventful(c.tag)
    ensures Run(c, [x] + s) ==
      Prepend(Emitted(c, Next(c.tag, Byte(x))),
              Run(Apply(c, Next(c.tag, Byte(x))), if Next(c.tag, Byte(x)).consume then s else [x] + s))
  {
    assert ([x] + s)[0] == x;
    assert ([x] + s)[1..] == s;
  }

  /** One step of an internal state, which reads nothing. */
  lemma RunFlush(c: Config, s: seq<char>)
    requires Eventful(c.tag)
    ensures Run(c, s) == Prepend(Emitted(c, Flush(c.tag)), Run(Apply(c, Flush(c.tag)), s))
  {
  }

  /** From `c`, the bytes `a` deliver the events `e` and leave the session in
      `d`, whatever input follows them. */
  ghost predicate Leads(c: Config, a: seq<char>, e: seq<Event>, d: Config) {
    forall rest: seq<char> {:trigger Run(c, a + rest)} :: Run(c, a + rest) == Prepend(e, Run(d, rest))
  }

  lemma PrependPrepend(a: seq<Event>, b: seq<Event>, t: Trace)
    ensures Prepend(a, Prepend(b, t)) == Prepend(a + b, t)
  {
    assert a + (b + t.events) == (a + b) + t.events;
  }

  /** Reading nothing delivers nothing. */
  lemma LeadsNil(c: Config)
    ensures Leads(c, [], [], c)
  {
    forall rest: seq<char> ensures Run(c, [] + rest) == Prepend([], Run(c, rest)) {
      assert [] + rest == rest;
      assert [] + Run(c, rest).events == Run(c, rest).events;
    }
  }

  /** Two readings in a row compose. */
  lemma LeadsTrans(c: Config, a: seq<char>, e: seq<Event>, d: Config, b: seq<char>, f: seq<Event>, g: Config)
    requires Leads(c, a, e, d) && Leads(d, b, f, g)
    ensures Leads(c, a + b, e + f, g)
  {
    forall rest: seq<char> ensures Run(c, (a + b) + rest) == Prepend(e + f, Run(g, rest)) {
      assert (a + b) + rest == a + (b + rest);
      assert Run(c, a + (b + rest)) == Prepend(e, Run(d, b + rest));
      PrependPrepend(e, f, Run(g, rest));
    }
  }

  /** A step that consumes its byte. */
  lemma StepLeads(c: Config, x: char)
    requires c.tag != Error && !Eventful(c.tag) && Next(c.tag, Byte(x)).consume
    ensures Leads(c, [x], Emitted(c, Next(c.tag, Byte(x))), Apply(c, Next(c.tag, Byte(x))))
  {
    forall rest: seq<char> ensures Run(c, [x] + rest)
        == Prepend(Emitted(c, Next(c.tag, Byte(x))), Run(Apply(c, Next(c.tag, Byte(x))), rest)) {
      RunByte(c, x, rest);
    }
  }

  /** A step that leaves its byte to be read again. */
  lemma PeekLeads(c: Config, a: seq<char>, e: seq<Event>, d: Config)
    requires c.tag != Error && !Eventful(c.tag) && a != [] && !Next(c.tag, Byte(a[0])).consume
    requires Leads(Apply(c, Next(c.tag, Byte(a[0]))), a, e, d)
    ensures Leads(c, a, Emitted(c, Next(c.tag, Byte(a[0]))) + e, d)
  {
    var st := Next(c.tag, Byte(a[0]));
    forall rest: seq<char> ensures Run(c, a + rest) == Prepend(Emitted(c, st) + e, Run(d, rest)) {
      assert (a + rest)[0] == a[0];
      assert Run(c, a + rest) == Prepend(Emitted(c, st), Run(Apply(c, st), a + rest));
      PrependPrepend(Emitted(c, st), e, Run(d, rest));
    }
  }

  /** An internal state delivers its event before anything is read. */
  lemma FlushLeads(c: Config, a: seq<char>, e: seq<Event>, d: Config)
    requires Eventful(c.tag) && Leads(Apply(c, Flush(c.tag)), a, e, d)
    ensures Leads(c, a, Emitted(c, Flush(c.tag)) + e, d)
  {
    forall rest: seq<char> ensures Run(c, a + rest) == Prepend(Emitted(c, Flush(c.tag)) + e, Run(d, rest)) {
      RunFlush(c, a + rest);
      PrependPrepend(Emitted(c, Flush(c.tag)), e, Run(d, rest));
    }
  }

  /** What a reading means for a `parse` and `finish` that go on after it. */
  lemma LeadsComplete(c: Config, a: seq<char>, e: seq<Event>, d: Config, b: seq<char>)
    requires Leads(c, a, e, d)
    ensures Run(c, a + b) == Prepend(e, Run(d, b))
    ensures Complete(c, a + b) == Prepend(e, Complete(d, b))
  {
    var r := Run(d, b);
    assert Run(c, a + b) == Prepend(e, r);
    PrependPrepend(e, r.events, Finish(r.final));
  }
}
