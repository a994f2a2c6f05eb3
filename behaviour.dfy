/** What the test suite of the CSV parser demands of a parsing session,
    stated once for every document instead of for each row of its tables:
    an error is reported at most once and ends the session; a `parse` or a
    `finish` on a recorder that does not interrupt delivers exactly what the
    machine delivers and returns whether the session is healthy; a document
    parsed in two chunks is parsed as one; and a parse that came back early
    because a callback stopped, aborted or threw, or because the buffer's
    allocator failed, completes the document when it is called again from
    where it came back. */
module CsvBehaviour {
  import opened Signals
  import opened Csv
  import opened Allocation
  import opened Recorder
  import opened CsvParser

  /** The last event of a non-empty run of events. */
  function Last(es: seq<Event>): Event
    requires es != []
  {
    es[|es| - 1]
  }

  /** A run of events holding one `error`, the last, or none at all; in the
      first case the recorder's last code is that error's. */
  predicate ErrorAtEnd(es: seq<Event>, failed: bool) {
    && ErrorCount(es) == (if failed then 1 else 0)
    && (failed ==> es != [] && Last(es).Raise? && forall d: ErrorCode {:trigger LastCode(es, d)} :: LastCode(es, d) == Last(es).code)
  }

  /** A step's own event, followed by a run that keeps the property, keeps
      it; `error` is the event of the step that enters `Error`. */
  lemma ErrorAtEndPrepend(c: Config, st: Step, rest: Trace)
    requires Coherent(c.tag, st) && (st.next == Error ==> rest == Trace([], Apply(c, st)))
    requires st.next != Error ==> ErrorAtEnd(rest.events, rest.final.tag == Error)
    ensures ErrorAtEnd(Emitted(c, st) + rest.events, rest.final.tag == Error)
  {
    var e := Emitted(c, st);
    ErrorCountAppend(e, rest.events);
    if st.next == Error {
      assert e + rest.events == e;
      forall d: ErrorCode ensures LastCode(e, d) == Last(e).code {
        XmlOne(e[0], d);
      }
    } else {
      assert ErrorCount(e) == 0 by {
        if e != [] { XmlOne(e[0], NoError); }
      }
      var es := e + rest.events;
      if rest.final.tag == Error {
        assert Last(es) == Last(rest.events);
        forall d: ErrorCode ensures LastCode(es, d) == Last(es).code {
          LastCodeAppend(e, rest.events, d);
        }
      }
    }
  }

  /** Test "CSV errors are detected": from a session not in `Error`, `parse`
      reports at most one error, as its last event, exactly when it ends in
      `Error`, whose pending buffer is then empty; so all sessions that
      failed are equal. */
  lemma {:induction false} RunErrors(c: Config, s: seq<char>)
    requires c.tag != Error
    ensures ErrorAtEnd(Run(c, s).events, Run(c, s).final.tag == Error)
    ensures Run(c, s).final.tag == Error ==> Run(c, s).final == Config(Error, [])
    decreases |s|, Rank(c.tag)
  {
    if Eventful(c.tag) || s != [] {
      var st := Next(c.tag, SymbolAt(s));
      NextRanks(c.tag, SymbolAt(s));
      StepContract(c.tag, SymbolAt(s));
      var next := Apply(c, st);
      var rest := Run(next, if st.consume then s[1..] else s);
      if st.next != Error {
        RunErrors(next, if st.consume then s[1..] else s);
      }
      ErrorAtEndPrepend(c, st, rest);
    }
  }

  /** The same for `finish`. */
  lemma {:induction false} FinishErrors(c: Config)
    requires c.tag != Error
    ensures ErrorAtEnd(Finish(c).events, Finish(c).final.tag == Error)
    ensures Finish(c).final.tag == Error ==> Finish(c).final == Config(Error, [])
    decreases EndRank(c.tag)
  {
    if c.tag != StartOfRow {
      var st := Next(c.tag, End);
      NextRanks(c.tag, End);
      StepContract(c.tag, End);
      var next := Apply(c, st);
      if st.next != Error {
        FinishErrors(next);
      }
      ErrorAtEndPrepend(c, st, Finish(next));
    }
  }

  /** A recorder that no longer interrupts, over a session not in `Error`,
      with the allocator's failing call made or never to come. */
  predicate Fresh(b: Status, n: nat) {
    Quiet(b, n) && b.session.tag != Error
  }

  /** Tests "CSV errors are detected" and "Check conversion": a `parse` that
      nothing interrupts delivers exactly the machine's events over the
      chunk, reaches its session, consumes the whole chunk unless it fails,
      and returns true exactly when it did not fail; a failure is reported
      by exactly one `error` callback, the last, whose code the recorder
      keeps. */
  lemma QuietParse(s: seq<char>, b: Status, r: Outcome, p: nat, d: seq<Event>, why: Halt, a: Status)
    requires Fresh(b, |s|) && Scanned(s, b, r, p, d, why, a)
    ensures Run(b.session, s) == Trace(d, a.session)
    ensures r == Returned(a.session.tag != Error) && (a.session.tag != Error ==> p == |s|)
    ensures a.snap == After(b.snap, d) && ErrorAtEnd(d, a.session.tag == Error)
  {
    RunErrors(b.session, s);
    if why.Replied? {
      RunStops(a.session, s[p..]);
      assert d + [] == d;
      ErrorStops(Last(d).code, a.snap.functionCalls - 1, a.snap.throwAt, a.snap.response);
    }
  }

  /** The same for `finish`. */
  lemma QuietFinish(b: Status, r: Outcome, d: seq<Event>, why: Halt, a: Status)
    requires Fresh(b, 0) && Ended(b, r, d, why, a)
    ensures Finish(b.session) == Trace(d, a.session)
    ensures r == Returned(a.session.tag != Error)
    ensures a.session.tag == Error || a.session.tag == StartOfRow
    ensures a.snap == After(b.snap, d) && ErrorAtEnd(d, a.session.tag == Error)
  {
    FinishErrors(b.session);
    if why.Replied? {
      assert Finish(a.session) == Trace([], a.session);
      assert d + [] == d;
      ErrorStops(Last(d).code, a.snap.functionCalls - 1, a.snap.throwAt, a.snap.response);
    }
  }

  /** An `error` callback among the events counts. */
  lemma LastRaiseCounts(d: seq<Event>)
    requires d != [] && Last(d).Raise?
    ensures ErrorCount(d) >= 1
  {
    assert d == d[..|d| - 1] + [Last(d)];
    ErrorCountAppend(d[..|d| - 1], [Last(d)]);
    XmlOne(Last(d), NoError);
  }

  /** Over a chunk that does not fail, a parse that came back is not in
      `Error`, and no callback it made was `error`. */
  lemma NoRaiseDelivered(s: seq<char>, b: Config, d: seq<Event>, a: Config, p: nat)
    requires b.tag != Error && Run(b, s).final.tag != Error
    requires p <= |s| && Run(b, s) == Prepend(d, Run(a, s[p..]))
    ensures a.tag != Error && Run(a, s[p..]).final == Run(b, s).final
    ensures d == [] || !Last(d).Raise?
  {
    if d != [] && Last(d).Raise? {
      RunErrors(b, s);
      ErrorCountAppend(d, Run(a, s[p..]).events);
      LastRaiseCounts(d);
      assert false;
    }
  }

  /** A reply other than `keep_going` to a callback that is not `error` is
      the scripted one. */
  lemma ScriptedReply(e: Event, calls: int, throwAt: int, response: Response)
    requires !e.Raise? && ReplyTo(e, calls, throwAt, response) != Answer(FromState(KeepGoing))
    ensures calls == throwAt
    ensures ReplyTo(e, calls, throwAt, response) ==
      match response
      case StopNow => Answer(FromState(Stop))
      case AbortNow => Answer(FromState(Abort))
      case Exception => Throw
  {
  }

  /** A parse that comes back without failing, for whatever reason, over a
      chunk that does not fail: a reply that interrupted it was the
      scripted one, so the recorder is quiet from then on. */
  lemma Unfailed(s: seq<char>, b: Status, r: Outcome, p: nat, d: seq<Event>, why: Halt, a: Status)
    requires b.session.tag != Error && Run(b.session, s).final.tag != Error
    requires Scanned(s, b, r, p, d, why, a)
    ensures a.session.tag != Error && Run(a.session, s[p..]).final == Run(b.session, s).final
    ensures (why.Replied? || why.CallbackThrew?) ==> a.snap.throwAt < a.snap.functionCalls
    ensures why.Replied? ==> why.cmd == FromState(if a.snap.response == StopNow then Stop else Abort) && a.snap.response != Exception
    ensures why.CallbackThrew? ==> a.snap.response == Exception
  {
    NoRaiseDelivered(s, b.session, d, a.session, p);
    if why.Replied? || why.CallbackThrew? {
      ScriptedReply(Last(d), a.snap.functionCalls - 1, a.snap.throwAt, a.snap.response);
    }
  }

  /** Where a chunk that does not fail leaves a parse that nothing
      interrupted. */
  lemma Whole(s: seq<char>, b: Status, r: Outcome, p: nat, d: seq<Event>, why: Halt, a: Status)
    requires Run(b.session, s).final.tag != Error && Scanned(s, b, r, p, d, why, a)
    requires why.Finished? || Fresh(b, |s|)
    ensures why.Finished? && r == Returned(true) && p == |s|
    ensures d == Run(b.session, s).events && a.session == Run(b.session, s).final
  {
    if why.Replied? {
      RunStops(a.session, s[p..]);
    }
  }

  /** Test "Check conversion", statefulness: a document that does not fail,
      parsed by two calls over two chunks on the same session and a quiet
      recorder and the standard allocator, is parsed as if in one call: both calls return true, each
      consumes its chunk, and together they deliver the events of the whole
      document and reach its session. The same holds for the in-place
      parser, whose two calls are over the same two chunks. */
  lemma ChunksCompose(s: seq<char>, i: nat, b: Status,
                      r1: Outcome, p1: nat, d1: seq<Event>, why1: Halt, a1: Status,
                      r2: Outcome, p2: nat, d2: seq<Event>, why2: Halt, a2: Status)
    requires i <= |s| && !b.faulty && Fresh(b, |s|) && Run(b.session, s).final.tag != Error
    requires Scanned(s[..i], b, r1, p1, d1, why1, a1) && Scanned(s[i..], a1, r2, p2, d2, why2, a2)
    ensures r1 == Returned(true) && r2 == Returned(true) && p1 == i && p2 == |s| - i
    ensures d1 + d2 == Run(b.session, s).events && a2.session == Run(b.session, s).final
    ensures a2.snap == After(b.snap, Run(b.session, s).events)
  {
    assert s == s[..i] + s[i..];
    RunAppend(b.session, s[..i], s[i..]);
    var t := Run(b.session, s[..i]);
    RunStops(t.final, s[i..]);
    assert t.final.tag != Error;
    Whole(s[..i], b, r1, p1, d1, why1, a1);
    Whole(s[i..], a1, r2, p2, d2, why2, a2);
    AfterAppend(b.snap, d1, d2);
  }

  /** The first call of the stop, abort and callback-exception tests, on a
      recorder scripted at one of its calls and a buffer that does not fail,
      over a document that does not fail: it comes back having consumed
      everything, or early because of the scripted reply. A scripted `stop`
      returns true; a scripted `abort` returns false; a scripted exception
      is let out. */
  lemma FirstCall(s: seq<char>, b: Status, r: Outcome, p: nat, d: seq<Event>, why: Halt, a: Status)
    requires !b.faulty && b.session.tag != Error && Run(b.session, s).final.tag != Error
    requires Scanned(s, b, r, p, d, why, a)
    ensures why.Finished? ==> r == Returned(true) && p == |s| && d == Run(b.session, s).events
    ensures b.snap.response == StopNow ==> r == Returned(true)
    ensures b.snap.response == AbortNow ==> (r == Returned(true) <==> why.Finished?)
    ensures b.snap.response == Exception ==> (r == Threw <==> !why.Finished?)
  {
    Unfailed(s, b, r, p, d, why, a);
    if why.Finished? {
      Whole(s, b, r, p, d, why, a);
    }
    ReturnValues();
  }

  /** Tests "Check conversion", exception safety and stopping: after a first
      call over a document that does not fail, however it came back, a
      second call from where it came back completes the document. Together
      the two calls consume the whole document, deliver each of its events
      exactly once, in order, and reach its session; the second call
      returns true. The recorder is scripted to interrupt once, or the
      buffer's allocator to fail once, but not both; the first call may
      have finished only when the allocator cannot fail. */
  lemma Resumption(s: seq<char>, b: Status,
                   r1: Outcome, p1: nat, d1: seq<Event>, why1: Halt, a1: Status,
                   r2: Outcome, p2: nat, d2: seq<Event>, why2: Halt, a2: Status)
    requires b.session.tag != Error && Run(b.session, s).final.tag != Error
    requires b.faulty ==> b.snap.throwAt < b.snap.functionCalls && 5 * |s| + 7 < SizeRange
    requires b.faulty ==> !why1.Finished?
    requires Scanned(s, b, r1, p1, d1, why1, a1) && Scanned(s[p1..], a1, r2, p2, d2, why2, a2)
    ensures r2 == Returned(true) && p1 + p2 == |s|
    ensures d1 + d2 == Run(b.session, s).events && a2.session == Run(b.session, s).final
    ensures a2.snap == After(b.snap, Run(b.session, s).events)
  {
    Unfailed(s, b, r1, p1, d1, why1, a1);
    if why1.Finished? {
      Whole(s, b, r1, p1, d1, why1, a1);
      RunStops(b.session, s);
      assert s[p1..] == [];
      assert d2 == [] by {
        assert Run(a1.session, []) == Trace([], a1.session);
        assert d2 + Run(a2.session, s[p1..][p2..]).events == [];
      }
    } else {
      if why1.AllocationFailed? {
        assert Quiet(a1, |s| - p1);
      }
      Whole(s[p1..], a1, r2, p2, d2, why2, a2);
    }
    AfterAppend(b.snap, d1, d2);
  }
}
