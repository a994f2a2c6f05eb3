/** `csv::parser<Alloc>`: a resumable parsing session over input supplied in
    chunks, owning its state tag and a growable field buffer. Each call to
    `parse` steps the machine of `Csv` over one chunk and reports where it
    stopped through a `scope_assign` guard; a delivered field is cleared from
    the buffer by a `scope_clear` guard. */
module CsvParser {
  import opened Signals
  import opened Csv
  import opened Allocation
  import opened Sinks
  import opened Guards
  import opened Recorder

  /** What a call to `parse` or `finish` does: return a value, or let an
      exception out. */
  datatype Outcome = Returned(value: bool) | Threw

  /** Why a call came back: it ran out of work, a callback answered `stop`
      or `abort`, a callback threw, or the buffer's allocation failed. */
  datatype Halt = Finished | Replied(cmd: Command) | CallbackThrew | AllocationFailed

  /** The result of one step: an allocation fault, or the callback's reply
      (`keep_going` for a step that fires no event). */
  datatype StepResult = Faulted | Done(reply: Reply)

  /** What the drivers are specified over: the session, the recorder, and
      the allocator behind the buffer (its count, `0` for the standard
      allocator, which never fails). */
  datatype Status = Status(session: Config, snap: Snapshot, faulty: bool, count: nat)

  /** A status from which a parse of `n` bytes cannot be interrupted: the
      recorder's scripted call is past, and the allocator has made its
      failing call and is far from wrapping round. */
  predicate Quiet(b: Status, n: nat) {
    b.snap.throwAt < b.snap.functionCalls && (b.faulty ==> 2 <= b.count && b.count + 5 * n + 5 < SizeRange)
  }

  /** The step `st` performed from `b` to `a`: either the buffer failed to
      grow, which changed nothing but the allocator, or the step was taken
      and delivered its event, if any, whose reply came back. */
  predicate Performed(b: Status, st: Step, res: StepResult, e: seq<Event>, a: Status) {
    && a.faulty == b.faulty && a.snap == After(b.snap, e) && |e| <= 1
    && (a.count == b.count || a.count == Bump(b.count))
    && (res.Faulted? ==> e == [] && a.session == b.session && a.faulty && a.count == Bump(b.count) && a.count == 2)
    && (res.Done? ==> a.session == Apply(b.session, st) && e == Emitted(b.session, st))
    && (res.Done? && e == [] ==> res.reply == Answer(FromState(KeepGoing)))
    && (res.Done? && e != [] ==> res.reply == ReplyTo(e[0], b.snap.functionCalls, b.snap.throwAt, b.snap.response))
  }

  /** The reply to the last of the events `d` delivered to a recorder now
      at `a`. */
  function LastReply(d: seq<Event>, a: Snapshot): Reply
    requires d != []
  {
    ReplyTo(d[|d| - 1], a.functionCalls - 1, a.throwAt, a.response)
  }

  /** What a call to `parse` over `s` from `b` promises, having come back at
      offset `pos` in `a` with `d` delivered, for the reason `why`.

      Whatever happens, what was delivered followed by what a parse from
      the new session over the rest of the chunk would deliver is what the
      old session would have delivered over the whole chunk: no event is
      repeated or lost when parsing resumes at `pos`. The call comes back
      early only for a reply other than `keep_going`, with the value
      `to_return_value` gives it, or for an exception. When nothing can
      interrupt it, it consumes the whole chunk or stops in `Error`, and
      returns whether the session is not in `Error`. */
  predicate Scanned(s: seq<char>, b: Status, r: Outcome, pos: nat, d: seq<Event>, why: Halt, a: Status) {
    && pos <= |s| && a.faulty == b.faulty && a.snap == After(b.snap, d)
    && Run(b.session, s) == Prepend(d, Run(a.session, s[pos..]))
    && (why.Finished? ==> Run(b.session, s) == Trace(d, a.session))
    && (why.Finished? ==> r == Returned(a.session.tag != Error) && (a.session.tag == Error || pos == |s|))
    && Interrupted(r, d, why, a)
    && (Quiet(b, |s|) ==> why.Finished? || (why.Replied? && a.session.tag == Error))
  }

  /** How a call that came back early for the reason `why` reports it: a
      reply other than `keep_going` to the last event delivered is returned
      through `to_return_value`, and the session is in `Error` exactly when
      that event was `error`; an exception from the callback or from the
      allocator is let out. */
  predicate Interrupted(r: Outcome, d: seq<Event>, why: Halt, a: Status) {
    && (why.Replied? ==> d != [] && LastReply(d, a.snap) == Answer(why.cmd))
    && (why.Replied? ==> CommandIsNot(why.cmd, KeepGoing) && r == Returned(ToReturnValue(why.cmd)))
    && (why.Replied? ==> (a.session.tag == Error <==> d[|d| - 1].Raise?))
    && (why.CallbackThrew? ==> r == Threw && d != [] && LastReply(d, a.snap) == Throw)
    && (why.AllocationFailed? ==> r == Threw && a.faulty && a.count == 2)
  }

  /** The steps a `parse` of `n` remaining bytes may still take from `t`:
      every step consumes a byte or lowers the rank. */
  function Fuel(n: nat, t: Tag): nat {
    5 * n + Rank(t)
  }

  /** The bookkeeping of one step of `parse` at offset `p`: if the events
      `d` and a parse from `c` over the rest make up the parse of the whole
      chunk from `c0`, then so do `d`, the step's event and a parse from the
      step's new session over what the step leaves unread. */
  lemma Resume(c0: Config, s: seq<char>, d: seq<Event>, c: Config, p: nat)
    requires p <= |s| && c.tag != Error && (Eventful(c.tag) || p < |s|)
    requires Run(c0, s) == Prepend(d, Run(c, s[p..]))
    ensures var x := if p < |s| then Byte(s[p]) else End;
      var st := Next(c.tag, x);
      && (st.consume ==> p < |s|)
      && Run(c0, s) == Prepend(d + Emitted(c, st), Run(Apply(c, st), s[p + (if st.consume then 1 else 0)..]))
  {
    var x := if p < |s| then Byte(s[p]) else End;
    assert SymbolAt(s[p..]) == x;
    var st := Next(c.tag, x);
    NextRanks(c.tag, x);
    var rest := Run(Apply(c, st), s[p + (if st.consume then 1 else 0)..]);
    assert Run(c, s[p..]) == Prepend(Emitted(c, st), rest) by {
      if st.consume {
        assert s[p..][1..] == s[p + 1..];
      }
    }
    PrependPrepend(d, Emitted(c, st), rest);
  }

  /** Where `parse` ends when nothing interrupts it. */
  lemma Rested(c0: Config, s: seq<char>, d: seq<Event>, c: Config, p: nat)
    requires p <= |s| && (c.tag == Error || (!Eventful(c.tag) && p == |s|))
    requires Run(c0, s) == Prepend(d, Run(c, s[p..]))
    ensures Run(c0, s) == Trace(d, c)
  {
    assert d + [] == d;
  }

  /** The counter of an allocator far from wrapping round goes up by one. */
  lemma BumpBelow(count: nat)
    requires count + 1 < SizeRange
    ensures Bump(count) == count + 1
  {
  }

  /** Each step of `parse` at offset `pos` of an `n`-byte chunk burns fuel. */
  lemma FuelStep(n: nat, pos: nat, t: Tag, x: Input)
    requires pos <= n && t != Error && (Eventful(t) || pos < n)
    requires x.Byte? <==> pos < n
    ensures var st := Next(t, x);
      (st.consume ==> pos < n) &&
      1 + Fuel(n - (pos + if st.consume then 1 else 0), st.next) <= Fuel(n - pos, t)
  {
    NextRanks(t, x);
  }

  /** The invariant of the `parse` loop over `s` from `b`, at offset `pos`
      in `a` after `steps` steps that delivered `d`: the events and the
      session account for the chunk so far, and an uninterrupted parse has
      the fuel and the allocator headroom for the steps still to come. */
  predicate Progress(s: seq<char>, b: Status, pos: nat, d: seq<Event>, steps: nat, a: Status) {
    && pos <= |s| && a.faulty == b.faulty && a.snap == After(b.snap, d)
    && Run(b.session, s) == Prepend(d, Run(a.session, s[pos..]))
    && (Quiet(b, |s|) && b.faulty ==> b.count <= a.count <= b.count + steps)
    && (Quiet(b, |s|) ==> steps + Fuel(|s| - pos, a.session.tag) <= Fuel(|s|, b.session.tag))
  }

  lemma ScanStarts(s: seq<char>, b: Status)
    ensures Progress(s, b, 0, [], 0, b)
  {
    AfterNil(b.snap);
    assert s[0..] == s;
    assert [] + Run(b.session, s).events == Run(b.session, s).events;
  }

  /** A step of the loop keeps its invariant, and on each way out of the
      loop, what the call promises holds. */
  lemma ScanAdvances(s: seq<char>, b: Status, pos: nat, d: seq<Event>, steps: nat, now: Status,
                     x: Input, st: Step, res: StepResult, e: seq<Event>, a: Status)
    requires Progress(s, b, pos, d, steps, now)
    requires now.session.tag != Error && (Eventful(now.session.tag) || pos < |s|)
    requires x == if pos < |s| then Byte(s[pos]) else End
    requires st == Next(now.session.tag, x) && Performed(now, st, res, e, a)
    ensures res.Faulted? ==> Scanned(s, b, Threw, pos, d, AllocationFailed, a)
    ensures res.Done? && st.consume ==> pos < |s|
    ensures res.Done? ==> Progress(s, b, pos + (if st.consume then 1 else 0), d + e, steps + 1, a)
    ensures res.Done? && res.reply.Throw? ==>
      Scanned(s, b, Threw, pos + (if st.consume then 1 else 0), d + e, CallbackThrew, a)
    ensures res.Done? && res.reply.Answer? && CommandIsNot(res.reply.cmd, KeepGoing) ==>
      Scanned(s, b, Returned(ToReturnValue(res.reply.cmd)), pos + (if st.consume then 1 else 0), d + e, Replied(res.reply.cmd), a)
  {
    if res.Faulted? {
      ScanFaults(s, b, pos, d, steps, now, x, st, res, e, a);
    } else {
      var p := pos + (if st.consume then 1 else 0);
      ScanSteps(s, b, pos, d, steps, now, x, st, res, e, a);
      ScanReplies(s, b, p, d, steps, now, x, st, res, e, a);
    }
  }

  /** The allocator of a quiet parse does not fail. */
  lemma ScanFaults(s: seq<char>, b: Status, pos: nat, d: seq<Event>, steps: nat, now: Status,
                   x: Input, st: Step, res: StepResult, e: seq<Event>, a: Status)
    requires Progress(s, b, pos, d, steps, now)
    requires now.session.tag != Error && (Eventful(now.session.tag) || pos < |s|)
    requires Performed(now, st, res, e, a) && res.Faulted?
    ensures Scanned(s, b, Threw, pos, d, AllocationFailed, a)
  {
    if Quiet(b, |s|) {
      BumpBelow(now.count);
    }
  }

  /** A step taken keeps the loop invariant. */
  lemma ScanSteps(s: seq<char>, b: Status, pos: nat, d: seq<Event>, steps: nat, now: Status,
                  x: Input, st: Step, res: StepResult, e: seq<Event>, a: Status)
    requires Progress(s, b, pos, d, steps, now)
    requires now.session.tag != Error && (Eventful(now.session.tag) || pos < |s|)
    requires x == if pos < |s| then Byte(s[pos]) else End
    requires st == Next(now.session.tag, x) && Performed(now, st, res, e, a) && res.Done?
    ensures st.consume ==> pos < |s|
    ensures Progress(s, b, pos + (if st.consume then 1 else 0), d + e, steps + 1, a)
  {
    var pos' := pos + (if st.consume then 1 else 0);
    FuelStep(|s|, pos, now.session.tag, x);
    Resume(b.session, s, d, now.session, pos);
    assert Run(b.session, s) == Prepend(d + e, Run(a.session, s[pos'..]));
    AfterAppend(b.snap, d, e);
    if Quiet(b, |s|) {
      if b.faulty {
        BumpBelow(now.count);
        assert b.count <= a.count <= b.count + steps + 1;
      }
    }
  }

  /** A step whose reply interrupts the loop: the reply is the last event's,
      and a quiet parse is interrupted only by the `abort` of an error. */
  lemma ScanReplies(s: seq<char>, b: Status, p: nat, d: seq<Event>, steps: nat, now: Status,
                    x: Input, st: Step, res: StepResult, e: seq<Event>, a: Status)
    requires Progress(s, b, p, d + e, steps + 1, a) && now.snap == After(b.snap, d)
    requires CanStep(now.session.tag, x)
    requires st == Next(now.session.tag, x) && Performed(now, st, res, e, a) && res.Done?
    ensures res.reply.Throw? ==> Scanned(s, b, Threw, p, d + e, CallbackThrew, a)
    ensures res.reply.Answer? && CommandIsNot(res.reply.cmd, KeepGoing) ==>
      Scanned(s, b, Returned(ToReturnValue(res.reply.cmd)), p, d + e, Replied(res.reply.cmd), a)
  {
    StepContract(now.session.tag, x);
    if e != [] {
      assert (d + e)[|d + e| - 1] == e[0];
      if Quiet(b, |s|) {
        QuietReply(e[0], now.snap.functionCalls, now.snap.throwAt, now.snap.response);
      }
    }
  }

  /** Where the loop ends when nothing interrupted it. */
  lemma ScanRests(s: seq<char>, b: Status, pos: nat, d: seq<Event>, steps: nat, a: Status)
    requires Progress(s, b, pos, d, steps, a)
    requires a.session.tag == Error || (!Eventful(a.session.tag) && pos == |s|)
    ensures Scanned(s, b, Returned(a.session.tag != Error), pos, d, Finished, a)
  {
    Rested(b.session, s, d, a.session, pos);
  }

  /** What a call to `finish` from `b` promises, having come back in `a`
      with `d` delivered, for the reason `why`: what was delivered followed
      by what a `finish` from the new session would deliver is what the old
      session's `finish` delivers, so a `finish` that was interrupted can be
      called again. When nothing can interrupt it, it ends the document at
      the start of a row or in `Error`, and returns whether it is not in
      `Error`. */
  predicate Ended(b: Status, r: Outcome, d: seq<Event>, why: Halt, a: Status) {
    && a.faulty == b.faulty && a.snap == After(b.snap, d)
    && Finish(b.session) == Prepend(d, Finish(a.session))
    && (why.Finished? ==> Finish(b.session) == Trace(d, a.session))
    && (why.Finished? ==> r == Returned(a.session.tag != Error) && (a.session.tag == Error || a.session.tag == StartOfRow))
    && Interrupted(r, d, why, a)
    && (Quiet(b, 0) ==> why.Finished? || (why.Replied? && a.session.tag == Error))
  }

  /** The invariant of the `finish` loop from `b`, in `a` after `steps`
      steps that delivered `d`. */
  predicate Ending(b: Status, d: seq<Event>, steps: nat, a: Status) {
    && a.faulty == b.faulty && a.snap == After(b.snap, d)
    && Finish(b.session) == Prepend(d, Finish(a.session))
    && (Quiet(b, 0) && b.faulty ==> b.count <= a.count <= b.count + steps)
    && (Quiet(b, 0) ==> steps + EndRank(a.session.tag) <= EndRank(b.session.tag))
  }

  lemma FinishStarts(b: Status)
    ensures Ending(b, [], 0, b)
  {
    AfterNil(b.snap);
    assert [] + Finish(b.session).events == Finish(b.session).events;
  }

  /** A step of the `finish` loop keeps its invariant, and on each way out of
      the loop, what the call promises holds. */
  lemma FinishAdvances(b: Status, d: seq<Event>, steps: nat, now: Status, st: Step, res: StepResult, e: seq<Event>, a: Status)
    requires Ending(b, d, steps, now) && now.session.tag != Error && now.session.tag != StartOfRow
    requires st == Next(now.session.tag, End) && Performed(now, st, res, e, a)
    ensures res.Faulted? ==> Ended(b, Threw, d, AllocationFailed, a)
    ensures res.Done? ==> Ending(b, d + e, steps + 1, a)
    ensures res.Done? && res.reply.Throw? ==> Ended(b, Threw, d + e, CallbackThrew, a)
    ensures res.Done? && res.reply.Answer? && CommandIsNot(res.reply.cmd, KeepGoing) ==>
      Ended(b, Returned(ToReturnValue(res.reply.cmd)), d + e, Replied(res.reply.cmd), a)
  {
    NextRanks(now.session.tag, End);
    if res.Faulted? {
      if Quiet(b, 0) {
        BumpBelow(now.count);
      }
    } else {
      FinishSteps(b, d, steps, now, st, res, e, a);
      FinishReplies(b, d, steps, now, st, res, e, a);
    }
  }

  /** A step taken keeps the loop invariant. */
  lemma FinishSteps(b: Status, d: seq<Event>, steps: nat, now: Status, st: Step, res: StepResult, e: seq<Event>, a: Status)
    requires Ending(b, d, steps, now) && now.session.tag != Error && now.session.tag != StartOfRow
    requires st == Next(now.session.tag, End) && Performed(now, st, res, e, a) && res.Done?
    ensures Ending(b, d + e, steps + 1, a)
  {
    NextRanks(now.session.tag, End);
    if Quiet(b, 0) && b.faulty {
      BumpBelow(now.count);
    }
    PrependPrepend(d, e, Finish(a.session));
    AfterAppend(b.snap, d, e);
  }

  /** A step whose reply interrupts the loop. */
  lemma FinishReplies(b: Status, d: seq<Event>, steps: nat, now: Status, st: Step, res: StepResult, e: seq<Event>, a: Status)
    requires Ending(b, d + e, steps + 1, a) && now.snap == After(b.snap, d) && now.session.tag != Error && now.session.tag != StartOfRow
    requires st == Next(now.session.tag, End) && Performed(now, st, res, e, a) && res.Done?
    ensures res.reply.Throw? ==> Ended(b, Threw, d + e, CallbackThrew, a)
    ensures res.reply.Answer? && CommandIsNot(res.reply.cmd, KeepGoing) ==>
      Ended(b, Returned(ToReturnValue(res.reply.cmd)), d + e, Replied(res.reply.cmd), a)
  {
    StepContract(now.session.tag, End);
    if e != [] {
      assert (d + e)[|d + e| - 1] == e[0];
      if Quiet(b, 0) {
        QuietReply(e[0], now.snap.functionCalls, now.snap.throwAt, now.snap.response);
      }
    }
  }

  /** Where the `finish` loop ends when nothing interrupted it. */
  lemma FinishRests(b: Status, d: seq<Event>, steps: nat, a: Status)
    requires Ending(b, d, steps, a) && (a.session.tag == Error || a.session.tag == StartOfRow)
    ensures Ended(b, Returned(a.session.tag != Error), d, Finished, a)
  {
    assert d + [] == d;
  }

  class Parser {
    var tag: Tag
    const vec: CharVector
    const sink: AppendToVector

    /** The buffer holds the sentinel exactly while a field is open. */
    ghost predicate Valid()
      reads this, vec, vec.alloc, sink
    {
      && sink.container == vec && vec.Valid()
      && (Started(tag) ==> sink.Sentinel())
      && (!Started(tag) ==> vec.contents == [])
    }

    /** The bytes of the field being assembled. */
    function Pending(): seq<char>
      reads this, vec, sink
      requires sink.container == vec
    {
      if vec.contents == [] then [] else sink.View()
    }

    /** The session: the state and the pending bytes, which is all that
        decides what the parser does next. */
    function Session(): Config
      reads this, vec, sink
      requires sink.container == vec
    {
      Config(tag, Pending())
    }

    /** The session, the recorder `cb` and the allocator's count. */
    function Observe(cb: CsvTestParser): Status
      reads this, vec, vec.alloc, sink, cb
      requires sink.container == vec
    {
      Status(Session(), cb.Snap(), vec.alloc != null, if vec.alloc == null then 0 else vec.alloc.count)
    }

    /** `parser(i)`: a fresh session whose buffer reserves `capacity` bytes,
        allocated through a fresh `second_throw_allocator` when `faulty` is
        set and through `std::allocator` otherwise. A fresh allocator's first
        allocation succeeds, so construction cannot fail. */
    constructor(capacity: nat, faulty: bool)
      ensures Valid() && Session() == Initial
      ensures faulty ==> vec.alloc != null && vec.alloc.count == (if capacity == 0 then 0 else 1)
      ensures !faulty ==> vec.alloc == null
      ensures vec.capacity == capacity
      ensures fresh(vec) && fresh(sink) && (vec.alloc != null ==> fresh(vec.alloc))
    {
      var a: SecondThrowAllocator? := null;
      if faulty {
        a := new SecondThrowAllocator();
      }
      var v := new CharVector(a);
      var ok := v.Reserve(capacity);
      assert ok;
      vec := v;
      sink := new AppendToVector(v);
      tag := Begin;
    }

    /** Equality of two sessions: their states and pending bytes agree,
        whatever buffer and allocator each one uses. Equal sessions hash
        alike. */
    predicate Equals(other: Parser)
      reads this, vec, sink, other, other.vec, other.sink
      requires sink.container == vec && other.sink.container == other.vec
      ensures Equals(other) ==> Hash() == other.Hash()
      ensures Bytes(Pending()) && Bytes(other.Pending()) ==> (Equals(other) <==> Hash() == other.Hash())
    {
      if Bytes(Pending()) && Bytes(other.Pending()) then
        HashSeparates(Session(), other.Session());
        Session() == other.Session()
      else
        Session() == other.Session()
    }

    /** `hash()`: a function of the session alone. */
    function Hash(): int
      reads this, vec, sink
      requires sink.container == vec
    {
      SessionHash(Session())
    }

    /** The sink operation of a step, `start` or `append`: it may fail on
        allocation, and then it changes nothing. */
    method Touch(op: SinkOp) returns (ok: bool)
      requires Valid() && (op.Open? || op.Put?)
      requires op.Open? ==> !Started(tag)
      requires op.Put? ==> Started(tag)
      modifies vec, vec.alloc
      ensures vec.Valid() && Charged(vec.alloc, ok)
      ensures !ok ==> vec.contents == old(vec.contents) && vec.alloc != null && vec.alloc.count == 2
      ensures ok ==> sink.Sentinel() && Pending() == if op.Open? then [] else old(Pending()) + [op.ch]
    {
      if op.Open? {
        ok := sink.Start();
      } else {
        ok := sink.Append(op.ch);
      }
    }

    /** The event of a step delivered to the callback, and for a step that
        delivers the field, the `scope_clear` that empties the buffer after
        the callback whatever it did. */
    method Notify(cb: CsvTestParser, ev: Event, reset: bool) returns (reply: Reply)
      requires sink.container == vec && vec.Valid()
      modifies vec, cb
      ensures vec.Valid() && reply == ReplyTo(ev, old(cb.functionCalls), cb.throwAt, cb.response)
      ensures cb.Snap() == After(old(cb.Snap()), [ev])
      ensures vec.contents == if reset then [] else old(vec.contents)
    {
      var guard: ScopeClear? := null;
      if reset {
        guard := new ScopeClear(sink);
      }
      reply := cb.Deliver(ev);
      if guard != null {
        guard.Exit();
      }
    }

    /** One step `st` of the machine: the sink operation first, then the new
        state, then the event, if any. */
    method Perform(cb: CsvTestParser, st: Step) returns (res: StepResult, ghost e: seq<Event>, ghost after: Status)
      requires Valid() && Coherent(tag, st)
      modifies this, vec, vec.alloc, cb
      ensures Valid() && Observe(cb) == after
      ensures Performed(old(Observe(cb)), st, res, e, after)
    {
      ghost var b := Observe(cb);
      AfterNil(b.snap);
      if st.op.Open? || st.op.Put? {
        var ok := Touch(st.op);
        if !ok {
          return Faulted, [], Observe(cb);
        }
      }
      tag := st.next;
      e := Emitted(b.session, st);
      var reply := Answer(FromState(KeepGoing));
      if !st.emit.Silent? {
        var ev := match st.emit
          case EmitStartRow => StartRow
          case EmitField => Field(Pending())
          case EmitEndRow => EndRow
          case EmitError(code) => Raise(code);
        assert e == [ev];
        reply := Notify(cb, ev, st.op.Reset?);
      }
      res, after := Done(reply), Observe(cb);
    }

    /** The loop of `parse` over the chunk `s`: it returns how far it got. */
    method Scan(cb: CsvTestParser, s: seq<char>)
      returns (r: Outcome, pos: nat, ghost delivered: seq<Event>, ghost why: Halt, ghost after: Status)
      requires Valid()
      modifies this, vec, vec.alloc, cb
      ensures Valid() && Observe(cb) == after
      ensures Scanned(s, old(Observe(cb)), r, pos, delivered, why, after)
    {
      ghost var b := Observe(cb);
      ghost var steps := 0;
      after, pos, delivered := b, 0, [];
      ScanStarts(s, b);
      while tag != Error && (Eventful(tag) || pos < |s|)
        invariant Valid() && Observe(cb) == after
        invariant Progress(s, b, pos, delivered, steps, after)
        decreases |s| - pos, Rank(tag)
      {
        ghost var now := after;
        var x := if pos < |s| then Byte(s[pos]) else End;
        var st := Next(tag, x);
        StepContract(tag, x);
        NextRanks(tag, x);
        var res;
        ghost var e;
        res, e, after := Perform(cb, st);
        ScanAdvances(s, b, pos, delivered, steps, now, x, st, res, e, after);
        if res.Faulted? {
          return Threw, pos, delivered, AllocationFailed, after;
        }
        pos := pos + if st.consume then 1 else 0;
        delivered, steps := delivered + e, steps + 1;
        if res.reply.Throw? {
          return Threw, pos, delivered, CallbackThrew, after;
        }
        var flow := RunCallback(res.reply.cmd);
        if flow.Return? {
          return Returned(flow.value), pos, delivered, Replied(res.reply.cmd), after;
        }
      }
      ScanRests(s, b, pos, delivered, steps, after);
      r, why := Returned(tag != Error), Finished;
    }

    /** `parse(cb, begin, end, &save)` over the chunk `s`, with `save` the
        optional resume position (`null` for the overload without one): the
        loop, guarded by a `scope_assign` that stores how far it got in
        `save` on every way out. */
    method Parse(cb: CsvTestParser, s: seq<char>, save: Position?)
      returns (r: Outcome, ghost pos: nat, ghost delivered: seq<Event>, ghost why: Halt, ghost after: Status)
      requires Valid()
      modifies this, vec, vec.alloc, cb, save
      ensures save != null ==> save.at == pos
      ensures Valid() && Observe(cb) == after
      ensures Scanned(s, old(Observe(cb)), r, pos, delivered, why, after)
    {
      var cursor := new Position(0);
      var guard := new ScopeAssign(cursor, save);
      var at;
      r, at, delivered, why, after := Scan(cb, s);
      cursor.at := at;
      guard.Exit();
      pos := at;
    }

    /** `finish(cb)`: the end of the document. It steps at the end of the
        input until the session is at the start of a row or in `Error`,
        delivering the last field and the end of its record, or the error
        of an unfinished document. */
    method Finish(cb: CsvTestParser) returns (r: Outcome, ghost delivered: seq<Event>, ghost why: Halt, ghost after: Status)
      requires Valid()
      modifies this, vec, vec.alloc, cb
      ensures Valid() && Observe(cb) == after
      ensures Ended(old(Observe(cb)), r, delivered, why, after)
    {
      ghost var b := Observe(cb);
      ghost var steps := 0;
      after, delivered := b, [];
      FinishStarts(b);
      while tag != Error && tag != StartOfRow
        invariant Valid() && Observe(cb) == after
        invariant Ending(b, delivered, steps, after)
        decreases EndRank(tag)
      {
        ghost var now := after;
        var st := Next(tag, End);
        StepContract(tag, End);
        NextRanks(tag, End);
        var res;
        ghost var e;
        res, e, after := Perform(cb, st);
        FinishAdvances(b, delivered, steps, now, st, res, e, after);
        if res.Faulted? {
          return Threw, delivered, AllocationFailed, after;
        }
        delivered, steps := delivered + e, steps + 1;
        if res.reply.Throw? {
          return Threw, delivered, CallbackThrew, after;
        }
        var flow := RunCallback(res.reply.cmd);
        if flow.Return? {
          return Returned(flow.value), delivered, Replied(res.reply.cmd), after;
        }
      }
      FinishRests(b, delivered, steps, after);
      r, why := Returned(tag != Error), Finished;
    }
  }

  /** The position of a state in the declaration of the states. */
  function TagCode(t: Tag): (k: nat)
    ensures k < 16
  {
    match t
    case Begin => 0
    case StartOfRow => 1
    case FirstFieldOfRecord => 2
    case FailOnLineFeed => 3
    case StartOfField => 4
    case InQuotedField => 5
    case InUnquotedField => 6
    case InQuote => 7
    case InNewLine => 8
    case RequireLineFeed => 9
    case EndOfField => 10
    case EndOfLastField => 11
    case EndOfRow => 12
    case Error => 13
  }

  /** Pending bytes as C++ `char`s: each one fits in a byte. */
  predicate Bytes(s: seq<char>) {
    forall i :: 0 <= i < |s| ==> s[i] as int < 256
  }

  /** The pending bytes read as a number in base 257, each byte a digit
      above zero, so that no two byte strings fold to the same number. */
  function BytesHash(s: seq<char>): nat {
    if s == [] then 0 else 257 * BytesHash(s[..|s| - 1]) + (s[|s| - 1] as int) % 256 + 1
  }

  /** A hash of a session: the state in the low four bits, the pending
      bytes above them. */
  function SessionHash(c: Config): nat {
    TagCode(c.tag) + 16 * BytesHash(c.pending)
  }

  /** Two numbers in base 257 with a last digit between 1 and 256 agree
      only digit for digit. */
  lemma LastDigit(h: nat, l: int, h': nat, l': int)
    requires 1 <= l <= 256 && 1 <= l' <= 256 && 257 * h + l == 257 * h' + l'
    ensures h == h' && l == l'
  {
  }

  /** Different byte strings fold to different numbers. */
  lemma {:induction false} BytesHashInjective(s: seq<char>, t: seq<char>)
    requires Bytes(s) && Bytes(t) && BytesHash(s) == BytesHash(t)
    ensures s == t
    decreases |s|
  {
    if s != [] && t != [] {
      var s0, t0 := s[..|s| - 1], t[..|t| - 1];
      var x, y := s[|s| - 1], t[|t| - 1];
      LastDigit(BytesHash(s0), (x as int) % 256 + 1, BytesHash(t0), (y as int) % 256 + 1);
      assert x as int == y as int;
      assert Bytes(s0) by { forall i | 0 <= i < |s0| ensures s0[i] as int < 256 { assert s0[i] == s[i]; } }
      assert Bytes(t0) by { forall i | 0 <= i < |t0| ensures t0[i] as int < 256 { assert t0[i] == t[i]; } }
      BytesHashInjective(s0, t0);
      assert s == s0 + [x] && t == t0 + [y];
    }
  }

  /** Sessions whose pending bytes are bytes hash alike exactly when they
      are equal. */
  lemma HashSeparates(c: Config, d: Config)
    requires Bytes(c.pending) && Bytes(d.pending)
    ensures SessionHash(c) == SessionHash(d) <==> c == d
  {
    if SessionHash(c) == SessionHash(d) {
      assert BytesHash(c.pending) == BytesHash(d.pending);
      BytesHashInjective(c.pending, d.pending);
    }
  }
}
