/** `csv::in_place_parser`: a parsing session over a caller's mutable buffer.
    The field being assembled lives in the buffer itself, in the stretch the
    `in_place` sink's cursor has written behind the read position, so the
    decoded bytes overwrite encoded ones that have already been read and no
    byte is allocated. `parse(cb, i)` parses up to offset `i`, `parse(cb)` to
    the end of the buffer, and `finish(cb)` ends the document. */
module InPlaceParsing {
  import opened Signals
  import opened Csv
  import opened Sinks
  import opened Recorder
  import opened CsvParser

  /** How far the write cursor has to stay behind the read position in state
      `t`: one byte in the states that have read a byte the field does not
      hold yet (a CR that may start a record separator, or a quote). */
  function Lag(t: Tag): nat {
    match t
    case FailOnLineFeed | InNewLine | InQuotedField | InQuote => 1
    case _ => 0
  }

  /** What the sink's cursor is after step `st` from `current`, with the read
      position at `pos`. */
  function CursorAfter(st: Step, current: nat, pos: nat): nat {
    match st.op
    case Open => pos
    case Put(_) => current + 1
    case _ => current
  }

  /** Step `st` on the symbol `x` can be done in place: a byte it appends is
      written inside the buffer, behind the read position or over the byte
      the step consumes; and the cursor stays far enough behind the read
      position afterwards. */
  predicate Fits(st: Step, x: Input, current: nat, pos: nat, len: nat) {
    && (st.consume ==> x.Byte?)
    && (st.op.Put? ==> current < len && current < pos + (if st.consume then 1 else 0))
    && (Started(st.next) ==> CursorAfter(st, current, pos) + Lag(st.next) <= pos + (if st.consume then 1 else 0))
  }

  /** Every step of the machine can be done in place. */
  lemma InPlaceStep(t: Tag, x: Input, current: nat, pos: nat, len: nat)
    requires CanStep(t, x) && pos <= len && (x.Byte? ==> pos < len)
    requires Started(t) ==> current + Lag(t) <= pos
    ensures Fits(Next(t, x), x, current, pos, len)
  {
    NextRanks(t, x);
    StepContract(t, x);
  }

  /** What the one-shot `parse(cb, data, size)` promises when nothing can
      interrupt it: a parse of the whole buffer, then `finish` if the parse
      succeeded, delivers the events of the document and returns whether it
      ended outside `Error`. */
  predicate Decoded(s: seq<char>, b: Status, r: Outcome, d: seq<Event>, a: Status) {
    && a.snap == After(b.snap, d)
    && (b.session == Initial && !b.faulty && Quiet(b, |s|) ==> Document(s) == Trace(d, a.session) && r == Returned(a.session.tag != Error))
  }

  /** The parse, then `finish` if it returned true, compose into the whole
      document. */
  lemma DocumentParsed(s: seq<char>, b: Status, r1: Outcome, p1: nat, d1: seq<Event>, why1: Halt, a1: Status,
                       r2: Outcome, d2: seq<Event>, why2: Halt, a2: Status)
    requires Scanned(s, b, r1, p1, d1, why1, a1)
    requires r1 == Returned(true) ==> Ended(a1, r2, d2, why2, a2)
    ensures r1 != Returned(true) ==> Decoded(s, b, r1, d1, a1)
    ensures r1 == Returned(true) ==> Decoded(s, b, r2, d1 + d2, a2)
  {
    if b.session == Initial && !b.faulty && Quiet(b, |s|) {
      RunStops(a1.session, s[p1..]);
      var t := Run(b.session, s);
      assert t == Trace(d1, a1.session);
      if r1 == Returned(true) {
        assert a1.session.tag != Error;
        assert Quiet(a1, 0);
        RunStops(a2.session, []);
        assert Finish(a1.session) == Trace(d2, a2.session);
        PrependPrepend(d1, d2, Finish(a2.session));
      } else {
        assert a1.session.tag == Error;
      }
    }
    if r1 == Returned(true) {
      AfterAppend(b.snap, d1, d2);
    }
  }

  /** Reading on leaves the bytes still to read as they were. */
  lemma Unread(a: seq<char>, input: seq<char>, i: nat, j: nat)
    requires i <= j <= |a| == |input| && a[i..] == input[i..]
    ensures a[j..] == input[j..]
  {
    assert a[j..] == a[i..][j - i..];
    assert input[j..] == input[i..][j - i..];
  }

  /** A byte written behind the bytes still to read leaves them as they
      were. */
  lemma Overwritten(a: seq<char>, input: seq<char>, j: nat, c: nat, ch: char)
    requires j <= |a| == |input| && a[j..] == input[j..] && c < j
    ensures a[c := ch][j..] == input[j..]
  {
    assert a[c := ch][j..] == a[j..];
  }

  /** A step of the `parse` loop over `s` begun in `b` was taken, leaving
      the read offset at `p` in `a` with `d` delivered: if the loop goes on,
      its invariant holds, and if the reply stopped it, `r` and `why` are
      what the call promises. */
  predicate Advanced(s: seq<char>, b: Status, p: nat, d: seq<Event>, steps: nat, halt: bool, r: Outcome, why: Halt, a: Status) {
    && (!halt ==> Progress(s, b, p, d, steps, a))
    && (halt ==> Scanned(s, b, r, p, d, why, a))
  }

  /** A step of the `parse` loop that was taken, and the way the loop goes
      on from its reply: keep going, or come back as `SAXY_RUN_CALLBACK` or
      the callback's exception says. */
  lemma AdvanceEnds(s: seq<char>, b: Status, p: nat, d: seq<Event>, steps: nat, now: Status,
                    x: Input, st: Step, res: StepResult, e: seq<Event>, a: Status,
                    halt: bool, r: Outcome, why: Halt)
    requires Progress(s, b, p, d, steps, now)
    requires now.session.tag != Error && (Eventful(now.session.tag) || p < |s|)
    requires x == if p < |s| then Byte(s[p]) else End
    requires st == Next(now.session.tag, x) && Performed(now, st, res, e, a) && res.Done?
    requires halt <==> res.reply.Throw? || CommandIsNot(res.reply.cmd, KeepGoing)
    requires res.reply.Throw? ==> r == Threw && why == CallbackThrew
    requires res.reply.Answer? && CommandIsNot(res.reply.cmd, KeepGoing) ==>
      r == Returned(ToReturnValue(res.reply.cmd)) && why == Replied(res.reply.cmd)
    ensures st.consume ==> p < |s|
    ensures Advanced(s, b, p + (if st.consume then 1 else 0), d + e, steps + 1, halt, r, why, a)
  {
    ScanAdvances(s, b, p, d, steps, now, x, st, res, e, a);
  }

  class InPlaceParser {
    const buf: array<char>
    const sink: InPlace
    /** The buffer's contents when the session began. */
    ghost const input: seq<char>
    var pos: nat
    var tag: Tag

    /** The bytes not read yet are still the input's, and the sink's cursor
        keeps its distance behind the read position while a field is open. */
    ghost predicate Valid()
      reads this, sink, buf
    {
      && sink.buf == buf && sink.Valid() && |input| == buf.Length && pos <= buf.Length
      && buf[pos..] == input[pos..]
      && (Started(tag) ==> sink.current + Lag(tag) <= pos)
    }

    /** The bytes of the field being assembled: the sink's view while a field
        is open. */
    function Pending(): seq<char>
      reads this, sink, sink.buf
      requires sink.Valid()
    {
      if Started(tag) then sink.View() else []
    }

    function Session(): Config
      reads this, sink, sink.buf
      requires sink.Valid()
    {
      Config(tag, Pending())
    }

    /** The session and the recorder `cb`; the buffer never allocates. */
    function Observe(cb: CsvTestParser): Status
      reads this, sink, sink.buf, cb
      requires sink.Valid()
    {
      Status(Session(), cb.Snap(), false, 0)
    }

    /** `in_place_parser(data, size)`: a fresh session at the start of the
        buffer. */
    constructor(data: array<char>)
      ensures Valid() && Session() == Initial && buf == data && input == data[..] && pos == 0
      ensures fresh(sink)
    {
      buf := data;
      input := data[..];
      pos := 0;
      tag := Begin;
      sink := new InPlace(data, 0);
    }

    /** The sink operation of step `st` on the symbol `x`: `start` at the
        read position, or `append` under the cursor, which writes no byte the
        parser has still to read. */
    method Touch(st: Step, ghost x: Input)
      requires Valid() && Coherent(tag, st) && Fits(st, x, sink.current, pos, buf.Length)
      requires x.Byte? ==> pos < buf.Length
      modifies sink, buf
      ensures sink.Valid()
      ensures buf[pos + (if st.consume then 1 else 0)..] == input[pos + (if st.consume then 1 else 0)..]
      ensures Started(st.next) ==> sink.current + Lag(st.next) <= pos + (if st.consume then 1 else 0)
      ensures Started(st.next) ==> sink.View() == Apply(old(Session()), st).pending
    {
      ghost var next := pos + if st.consume then 1 else 0;
      ghost var before := buf[..];
      Unread(before, input, pos, next);
      match st.op {
        case Open => sink.Start(pos);
        case Put(ch) =>
          ghost var c := sink.current;
          sink.Append(ch);
          Overwritten(before, input, next, c, ch);
        case Hold =>
        case Reset => sink.Clear();
      }
    }

    /** One step `st` of the machine on the symbol `x` under the read
        position: the sink operation, the event, if any, then the new state
        and read position. */
    method Perform(cb: CsvTestParser, st: Step, ghost x: Input) returns (res: StepResult, ghost e: seq<Event>, ghost after: Status)
      requires Valid() && Coherent(tag, st) && Fits(st, x, sink.current, pos, buf.Length)
      requires x.Byte? ==> pos < buf.Length
      modifies this, sink, buf, cb
      ensures Valid() && Observe(cb) == after && res.Done?
      ensures pos == old(pos) + if st.consume then 1 else 0
      ensures Performed(old(Observe(cb)), st, res, e, after)
    {
      ghost var b := Observe(cb);
      AfterNil(b.snap);
      e := Emitted(b.session, st);
      var ev := match st.emit
        case EmitField => Field(Pending())
        case EmitStartRow => StartRow
        case EmitEndRow => EndRow
        case EmitError(code) => Raise(code)
        case Silent => EndRow;
      Touch(st, x);
      pos := pos + if st.consume then 1 else 0;
      tag := st.next;
      var reply := Answer(FromState(KeepGoing));
      if !st.emit.Silent? {
        assert e == [ev];
        reply := cb.Deliver(ev);
      }
      res, after := Done(reply), Observe(cb);
    }

    /** One step of the loop of `parse` over `s`, the stretch of the input
        from `from` to `upTo`, begun in `b`, and `SAXY_RUN_CALLBACK` on its
        reply: the loop's measure goes down, and either the loop goes on or
        the call comes back with `r`. */
    method Advance(cb: CsvTestParser, upTo: nat, ghost s: seq<char>, ghost from: nat, ghost b: Status,
                   ghost d: seq<Event>, ghost steps: nat)
      returns (halt: bool, r: Outcome, ghost at: nat, ghost delivered: seq<Event>, ghost why: Halt, ghost after: Status)
      requires Valid() && from <= pos <= upTo <= buf.Length && s == input[from..upTo]
      requires tag != Error && (Eventful(tag) || pos < upTo)
      requires Progress(s, b, pos - from, d, steps, Observe(cb))
      modifies this, sink, buf, cb
      ensures Valid() && Observe(cb) == after && from <= pos <= upTo
      ensures pos > old(pos) || (pos == old(pos) && Rank(tag) < Rank(old(tag)))
      ensures at == pos - from && Advanced(s, b, at, delivered, steps + 1, halt, r, why, after)
    {
      ghost var now := Observe(cb);
      ghost var p := pos - from;
      var x := if pos < upTo then Byte(buf[pos]) else End;
      assert pos < upTo ==> buf[pos] == buf[pos..][0] == input[pos] == s[p];
      var st := Next(tag, x);
      StepContract(tag, x);
      NextRanks(tag, x);
      InPlaceStep(tag, x, sink.current, pos, buf.Length);
      var res;
      ghost var e;
      res, e, after := Perform(cb, st, x);
      delivered, at := d + e, p + if st.consume then 1 else 0;
      halt, r, why := false, Threw, Finished;
      if res.reply.Throw? {
        halt, why := true, CallbackThrew;
      } else {
        var flow := RunCallback(res.reply.cmd);
        if flow.Return? {
          halt, r, why := true, Returned(flow.value), Replied(res.reply.cmd);
        }
      }
      AdvanceEnds(s, b, p, d, steps, now, x, st, res, e, after, halt, r, why);
    }

    /** The loop of `parse`: `s` is the stretch of the input from the read
        position `from` to `upTo`, and `b` what the session and the recorder
        were when it began. */
    method Scan(cb: CsvTestParser, upTo: nat, ghost s: seq<char>, ghost from: nat, ghost b: Status)
      returns (r: Outcome, ghost at: nat, ghost delivered: seq<Event>, ghost why: Halt, ghost after: Status)
      requires Valid() && from == pos <= upTo <= buf.Length && s == input[from..upTo] && b == Observe(cb)
      modifies this, sink, buf, cb
      ensures Valid() && Observe(cb) == after && from <= pos <= upTo && at == pos - from
      ensures Scanned(s, b, r, at, delivered, why, after)
    {
      ghost var steps := 0;
      after, delivered, at := b, [], 0;
      ScanStarts(s, b);
      while tag != Error && (Eventful(tag) || pos < upTo)
        invariant Valid() && Observe(cb) == after && from <= pos <= upTo && at == pos - from
        invariant Progress(s, b, at, delivered, steps, after)
        decreases upTo - pos, Rank(tag)
      {
        var halt;
        halt, r, at, delivered, why, after := Advance(cb, upTo, s, from, b, delivered, steps);
        steps := steps + 1;
        if halt {
          return;
        }
      }
      ScanRests(s, b, at, delivered, steps, after);
      r, why := Returned(tag != Error), Finished;
    }

    /** `parse(cb, i)`: parses from the read position up to offset `upTo`. */
    method ParseTo(cb: CsvTestParser, upTo: nat)
      returns (r: Outcome, ghost delivered: seq<Event>, ghost why: Halt, ghost after: Status)
      requires Valid() && pos <= upTo <= buf.Length
      modifies this, sink, buf, cb
      ensures Valid() && Observe(cb) == after && old(pos) <= pos <= upTo
      ensures Scanned(input[old(pos)..upTo], old(Observe(cb)), r, pos - old(pos), delivered, why, after)
    {
      ghost var s, from, b := input[pos..upTo], pos, Observe(cb);
      ghost var at;
      r, at, delivered, why, after := Scan(cb, upTo, s, from, b);
      assert b == old(Observe(cb)) && s == input[old(pos)..upTo] && at == pos - old(pos);
    }

    /** `parse(cb)`: parses from the read position to the end of the
        buffer. */
    method Parse(cb: CsvTestParser)
      returns (r: Outcome, ghost delivered: seq<Event>, ghost why: Halt, ghost after: Status)
      requires Valid()
      modifies this, sink, buf, cb
      ensures Valid() && Observe(cb) == after && old(pos) <= pos <= buf.Length
      ensures Scanned(input[old(pos)..], old(Observe(cb)), r, pos - old(pos), delivered, why, after)
    {
      assert input[pos..] == input[pos..buf.Length];
      r, delivered, why, after := ParseTo(cb, buf.Length);
    }

    /** `finish(cb)`: the end of the document. */
    method Finish(cb: CsvTestParser) returns (r: Outcome, ghost delivered: seq<Event>, ghost why: Halt, ghost after: Status)
      requires Valid()
      modifies this, sink, buf, cb
      ensures Valid() && Observe(cb) == after
      ensures Ended(old(Observe(cb)), r, delivered, why, after)
    {
      ghost var b := Observe(cb);
      ghost var steps := 0;
      after, delivered := b, [];
      FinishStarts(b);
      while tag != Error && tag != StartOfRow
        invariant Valid() && Observe(cb) == after
        invariant Ending(b, delivered, steps, after)
        decreases EndRank(tag)
      {
        ghost var now := after;
        var st := Next(tag, End);
        StepContract(tag, End);
        NextRanks(tag, End);
        InPlaceStep(tag, End, sink.current, pos, buf.Length);
        var res;
        ghost var e;
        res, e, after := Perform(cb, st, End);
        FinishAdvances(b, delivered, steps, now, st, res, e, after);
        delivered, steps := delivered + e, steps + 1;
        if res.reply.Throw? {
          return Threw, delivered, CallbackThrew, after;
        }
        var flow := RunCallback(res.reply.cmd);
        if flow.Return? {
          return Returned(flow.value), delivered, Replied(res.reply.cmd), after;
        }
      }
      FinishRests(b, delivered, steps, after);
      r, why := Returned(tag != Error), Finished;
    }
  }

  /** The one-shot `csv::parse(cb, data, size)`: an in-place session over the
      whole buffer, `parse`, then `finish` if the parse returned true. It
      delivers `delivered` and leaves the session `final` behind. */
  method ParseBuffer(cb: CsvTestParser, data: array<char>) returns (r: Outcome, ghost delivered: seq<Event>, ghost final: Status)
    modifies data, cb
    ensures final.snap == cb.Snap()
    ensures Decoded(old(data[..]), Status(Initial, old(cb.Snap()), false, 0), r, delivered, final)
  {
    var p := new InPlaceParser(data);
    ghost var b := p.Observe(cb);
    var r1, d1, why1, a1 := p.Parse(cb);
    ghost var p1 := p.pos;
    r, delivered, final := r1, d1, a1;
    var r2 := r1;
    ghost var d2, why2, a2 := [], Finished, a1;
    if r1 == Returned(true) {
      r2, d2, why2, a2 := p.Finish(cb);
      r, delivered, final := r2, d1 + d2, a2;
    }
    DocumentParsed(p.input, b, r1, p1, d1, why1, a1, r2, d2, why2, a2);
  }
}
