/** The tables of the CSV parser's test suite, row by row: the documents of
    "Check conversion" and the records they decode to, the sessions of
    "Check equality" grouped as the test groups them, and the documents of
    "CSV errors are detected" with the error each one reports. Each document
    is written as records, or as a prefix of records, so that the general
    lemmas of `CsvRecords` and `CsvPrefixes` give its run; those of
    `CsvBehaviour` then give the outcome of every way the tests drive a
    parser over it. */
module CsvTables {
  import opened Csv
  import opened CsvRecords
  import opened CsvPrefixes
  import opened Recorder
  import opened CsvParser
  import opened CsvBehaviour
  import opened InPlaceParsing
  import opened Allocation

  // ------------------------------------------------------------ conversion

  /** A row of "Check conversion": the document `csv`, which ends in CRLF,
      decodes in one `parse` on a fresh session to the records `xml`,
      leaving the session at the start of a row; without its last CRLF,
      `parse` and `finish` deliver the same events. */
  predicate Converts(csv: seq<char>, xml: seq<char>) {
    && |csv| >= 2
    && Run(Initial, csv).final == Config(StartOfRow, [])
    && Xml(Run(Initial, csv).events) == xml
    && Document(csv[..|csv| - 2]) == Trace(Run(Initial, csv).events, Config(StartOfRow, []))
  }

  /** The XML the recorder writes for the cells of a record. */
  function ShownCells(cs: seq<Cell>): seq<char> {
    if cs == [] then [] else "[" + cs[0].text + "]" + ShownCells(cs[1..])
  }

  /** The XML the recorder writes for records: each between braces, each of
      its fields between brackets. */
  function Shown(rows: seq<seq<Cell>>): seq<char> {
    if rows == [] then [] else Shown(rows[..|rows| - 1]) + "{" + ShownCells(rows[|rows| - 1]) + "}"
  }

  /** Capital letters stand bare in a field. */
  lemma Capitals(t: seq<char>)
    requires forall i :: 0 <= i < |t| ==> 'A' <= t[i] <= 'Z'
    ensures PlainText(t)
  {
  }

  /** A body without double quotes is written as it is. */
  lemma {:induction false} Unquoted(t: seq<char>)
    requires forall i :: 0 <= i < |t| ==> t[i] != Quote
    ensures Escape(t) == t
  {
    if t != [] {
      Unquoted(t[1..]);
    }
  }

  /** A closed quoted field alone, its body without double quotes. */
  lemma ClosedAlone(t: seq<char>)
    requires forall i :: 0 <= i < |t| ==> t[i] != Quote
    ensures Prefix([], [], Closed(t)) == [Quote] + t + [Quote]
  {
    Unquoted(t);
    assert Encode([]) == [] && Fields([]) == [];
  }

  lemma XmlCons(e: Event, es: seq<Event>)
    ensures Xml([e] + es) == Render(e) + Xml(es)
  {
    assert ([e] + es)[1..] == es;
  }

  /** The recorder writes a record's fields as `ShownCells` says. */
  lemma {:induction false} FieldsXml(cs: seq<Cell>)
    ensures Xml(FieldEvents(cs)) == ShownCells(cs)
    decreases |cs|
  {
    if cs != [] {
      FieldsXml(cs[1..]);
      XmlCons(Field(cs[0].text), FieldEvents(cs[1..]));
    }
  }

  /** The recorder writes the events of records as `Shown` says. */
  lemma {:induction false} EventsXml(rows: seq<seq<Cell>>)
    ensures Xml(Events(rows)) == Shown(rows)
    decreases |rows|
  {
    if rows != [] {
      var init, last := rows[..|rows| - 1], rows[|rows| - 1];
      EventsXml(init);
      FieldsXml(last);
      XmlAppend(Events(init), RowEvents(last));
      XmlAppend([StartRow] + FieldEvents(last), [EndRow]);
      XmlCons(StartRow, FieldEvents(last));
      XmlCons(EndRow, []);
    }
  }

  /** Every row of "Check conversion" is an instance of this: well-formed
      records, encoded, convert to the XML of those records. */
  lemma RecordsConvert(rows: seq<seq<Cell>>)
    requires ValidRows(rows) && rows != []
    ensures Converts(Encode(rows), Shown(rows))
  {
    RoundTrip(rows);
    TrimmedRoundTrip(rows);
    EventsXml(rows);
  }

  /** What a row of the conversion table means for the whole document: it
      does not fail, no `error` is delivered, and `finish` adds nothing. */
  lemma ConversionClean(csv: seq<char>, xml: seq<char>)
    requires Converts(csv, xml)
    ensures Run(Initial, csv).final.tag != Error && ErrorCount(Run(Initial, csv).events) == 0
    ensures Document(csv) == Run(Initial, csv)
  {
    RunErrors(Initial, csv);
    assert Run(Initial, csv).events + [] == Run(Initial, csv).events;
  }

  /** Test "Check conversion", static conversion and static conversion and
      finish: the one-call in-place parse of a row's document, with or
      without its last CRLF, on a fresh recorder, returns true, records
      exactly the row's records and counts no error. */
  lemma StaticConversion(csv: seq<char>, xml: seq<char>, trimmed: bool,
                         b: Status, r: Outcome, d: seq<Event>, a: Status)
    requires Converts(csv, xml)
    requires b.session == Initial && !b.faulty && b.snap.throwAt < b.snap.functionCalls
    requires Decoded(if trimmed then csv[..|csv| - 2] else csv, b, r, d, a)
    ensures r == Returned(true) && a.snap.xml == b.snap.xml + xml
    ensures a.snap.errorCount == b.snap.errorCount
  {
    ConversionClean(csv, xml);
  }

  /** Test "Check conversion", statefulness, for the parser and for the
      in-place parser: a row's document split anywhere and parsed in two
      calls on a fresh session and a quiet recorder: both calls return true
      and consume their chunk, and the recorder writes exactly the row's
      records and counts no error. */
  lemma ChunkedConversion(csv: seq<char>, xml: seq<char>, i: nat, b: Status,
                          r1: Outcome, p1: nat, d1: seq<Event>, why1: Halt, a1: Status,
                          r2: Outcome, p2: nat, d2: seq<Event>, why2: Halt, a2: Status)
    requires Converts(csv, xml) && i <= |csv|
    requires b.session == Initial && !b.faulty && b.snap.throwAt < b.snap.functionCalls
    requires Scanned(csv[..i], b, r1, p1, d1, why1, a1) && Scanned(csv[i..], a1, r2, p2, d2, why2, a2)
    ensures r1 == Returned(true) && r2 == Returned(true) && p1 == i && p2 == |csv| - i
    ensures a2.snap.xml == b.snap.xml + xml && a2.snap.errorCount == b.snap.errorCount
  {
    ConversionClean(csv, xml);
    ChunksCompose(csv, i, b, r1, p1, d1, why1, a1, r2, p2, d2, why2, a2);
  }

  /** Test "Check conversion", exception safety when the buffer throws: a
      parser whose allocator fails its second allocation, on a quiet
      recorder: the first call over a row's document either does not throw,
      and then it returns true and consumes the document, or it throws, and
      then a second call from where it came back returns true and consumes
      the rest; either way the recorder writes exactly the row's records and
      counts no error. */
  lemma FaultedConversion(csv: seq<char>, xml: seq<char>, b: Status,
                          r1: Outcome, p1: nat, d1: seq<Event>, why1: Halt, a1: Status,
                          r2: Outcome, p2: nat, d2: seq<Event>, why2: Halt, a2: Status)
    requires Converts(csv, xml) && b.session == Initial && b.faulty
    requires b.snap.throwAt < b.snap.functionCalls && 5 * |csv| + 7 < SizeRange
    requires Scanned(csv, b, r1, p1, d1, why1, a1)
    requires r1 == Threw ==> Scanned(csv[p1..], a1, r2, p2, d2, why2, a2)
    ensures r1 != Threw ==> r1 == Returned(true) && p1 == |csv|
    ensures r1 != Threw ==> a1.snap.xml == b.snap.xml + xml && a1.snap.errorCount == b.snap.errorCount
    ensures r1 == Threw ==> r2 == Returned(true) && p1 + p2 == |csv|
    ensures r1 == Threw ==> a2.snap.xml == b.snap.xml + xml && a2.snap.errorCount == b.snap.errorCount
  {
    ConversionClean(csv, xml);
    Unfailed(csv, b, r1, p1, d1, why1, a1);
    if why1.Replied? || why1.CallbackThrew? {
      assert false;
    }
    if why1.Finished? {
      Whole(csv, b, r1, p1, d1, why1, a1);
    } else {
      Resumption(csv, b, r1, p1, d1, why1, a1, r2, p2, d2, why2, a2);
    }
  }

  /** Test "Check conversion", exception safety when the callback throws: a
      recorder that throws at one of its calls: the first call over a row's
      document either does not throw, and then it returns true and consumes
      the document, or it throws, and then a second call from where it came
      back returns true and consumes the rest; either way the recorder
      writes exactly the row's records and counts no error. */
  lemma ThrownConversion(csv: seq<char>, xml: seq<char>, b: Status,
                         r1: Outcome, p1: nat, d1: seq<Event>, why1: Halt, a1: Status,
                         r2: Outcome, p2: nat, d2: seq<Event>, why2: Halt, a2: Status)
    requires Converts(csv, xml) && b.session == Initial && !b.faulty && b.snap.response == Exception
    requires Scanned(csv, b, r1, p1, d1, why1, a1)
    requires r1 == Threw ==> Scanned(csv[p1..], a1, r2, p2, d2, why2, a2)
    ensures r1 != Threw ==> r1 == Returned(true) && p1 == |csv|
    ensures r1 != Threw ==> a1.snap.xml == b.snap.xml + xml && a1.snap.errorCount == b.snap.errorCount
    ensures r1 == Threw ==> r2 == Returned(true) && p1 + p2 == |csv|
    ensures r1 == Threw ==> a2.snap.xml == b.snap.xml + xml && a2.snap.errorCount == b.snap.errorCount
  {
    ConversionClean(csv, xml);
    FirstCall(csv, b, r1, p1, d1, why1, a1);
    if r1 == Threw {
      Resumption(csv, b, r1, p1, d1, why1, a1, r2, p2, d2, why2, a2);
    }
  }

  /** Test "Check conversion", stopping: a recorder that answers `stop` at
      one of its calls: the first call over a row's document returns true,
      and a second call from where it came back returns true and consumes
      the rest; the recorder writes exactly the row's records and counts no
      error. */
  lemma StoppedConversion(csv: seq<char>, xml: seq<char>, b: Status,
                          r1: Outcome, p1: nat, d1: seq<Event>, why1: Halt, a1: Status,
                          r2: Outcome, p2: nat, d2: seq<Event>, why2: Halt, a2: Status)
    requires Converts(csv, xml) && b.session == Initial && !b.faulty && b.snap.response == StopNow
    requires Scanned(csv, b, r1, p1, d1, why1, a1) && Scanned(csv[p1..], a1, r2, p2, d2, why2, a2)
    ensures r1 == Returned(true) && r2 == Returned(true) && p1 + p2 == |csv|
    ensures a2.snap.xml == b.snap.xml + xml && a2.snap.errorCount == b.snap.errorCount
  {
    ConversionClean(csv, xml);
    FirstCall(csv, b, r1, p1, d1, why1, a1);
    Resumption(csv, b, r1, p1, d1, why1, a1, r2, p2, d2, why2, a2);
  }

  /** Test "Check conversion", aborting: a first call over a row's document
      on a recorder scripted to abort at one of its calls returns false
      exactly when it was aborted, and then a second call from where it came
      back completes it; the document is consumed, and the recorder writes
      exactly the row's records and counts no error. */
  lemma AbortedConversion(csv: seq<char>, xml: seq<char>, b: Status,
                          r1: Outcome, p1: nat, d1: seq<Event>, why1: Halt, a1: Status,
                          r2: Outcome, p2: nat, d2: seq<Event>, why2: Halt, a2: Status)
    requires Converts(csv, xml) && b.session == Initial && !b.faulty && b.snap.response == AbortNow
    requires Scanned(csv, b, r1, p1, d1, why1, a1)
    requires r1 != Returned(true) ==> Scanned(csv[p1..], a1, r2, p2, d2, why2, a2)
    ensures r1 == Returned(true) ==> p1 == |csv| && a1.snap.xml == b.snap.xml + xml && a1.snap.errorCount == b.snap.errorCount
    ensures r1 != Returned(true) ==> r2 == Returned(true) && p1 + p2 == |csv|
    ensures r1 != Returned(true) ==> a2.snap.xml == b.snap.xml + xml && a2.snap.errorCount == b.snap.errorCount
  {
    ConversionClean(csv, xml);
    FirstCall(csv, b, r1, p1, d1, why1, a1);
    if r1 != Returned(true) {
      Resumption(csv, b, r1, p1, d1, why1, a1, r2, p2, d2, why2, a2);
    }
  }

  // ------------------------------------------------------------ errors

  /** A document that `parse` rejects with `code`: the session ends in
      `Error` and the last event is the error. */
  predicate Rejects(s: seq<char>, code: ErrorCode) {
    && Run(Initial, s).final == Config(Error, [])
    && Run(Initial, s).events != [] && Last(Run(Initial, s).events) == Raise(code)
  }

  /** Test "CSV errors are detected": `parse` of a rejected document on a
      fresh parser and recorder returns false, and the recorder counts one
      error more, with the document's code. */
  lemma RejectedDocument(s: seq<char>, code: ErrorCode, b: Status, r: Outcome, p: nat, d: seq<Event>, why: Halt, a: Status)
    requires Rejects(s, code)
    requires b.session == Initial && Quiet(b, |s|) && Scanned(s, b, r, p, d, why, a)
    ensures r == Returned(false)
    ensures a.snap.errorCount == b.snap.errorCount + 1 && a.snap.csvError == code
  {
    QuietParse(s, b, r, p, d, why, a);
  }

  /** Test "CSV errors are detected", the empty document: `parse` returns
      true and delivers nothing, then `finish` returns false, and the
      recorder counts one error more, `no_fields_in_record`. */
  lemma EmptyDocument(b: Status, r1: Outcome, p1: nat, d1: seq<Event>, why1: Halt, a1: Status,
                      r2: Outcome, d2: seq<Event>, why2: Halt, a2: Status)
    requires b.session == Initial && !b.faulty && b.snap.throwAt < b.snap.functionCalls
    requires Scanned([], b, r1, p1, d1, why1, a1) && Ended(a1, r2, d2, why2, a2)
    ensures r1 == Returned(true) && d1 == [] && r2 == Returned(false)
    ensures a2.snap.errorCount == b.snap.errorCount + 1 && a2.snap.csvError == NoFieldsInRecord
  {
    QuietParse([], b, r1, p1, d1, why1, a1);
    assert Run(Initial, []) == Trace([], Initial);
    AfterNil(b.snap);
    QuietFinish(a1, r2, d2, why2, a2);
    assert Finish(Initial) == Trace([Raise(NoFieldsInRecord)], Config(Error, []));
  }

  // ------------------------------------------------------------ the rows

  /** A string written as a prefix of records leaves a fresh session where
      the prefix says. */
  lemma PrefixLeaves(rows: seq<seq<Cell>>, cs: seq<Cell>, p: Partial, s: seq<char>)
    requires ValidRows(rows) && ValidCells(cs) && ValidPartial(p) && s == Prefix(rows, cs, p)
    ensures Run(Initial, s).final == Where(rows, cs, p)
  {
    PrefixSession(rows, cs, p);
  }

  /** A string written as a prefix of records followed by a byte its session
      rejects fails there with the events `es`. */
  lemma PrefixRejects(rows: seq<seq<Cell>>, cs: seq<Cell>, p: Partial, x: char, rest: seq<char>, s: seq<char>, es: seq<Event>)
    requires ValidRows(rows) && ValidCells(cs) && ValidPartial(p)
    requires var w := Where(rows, cs, p); CanStep(w.tag, Byte(x)) && !Eventful(w.tag) && Next(w.tag, Byte(x)).next == Error
    requires s == Prefix(rows, cs, p) + [x] + rest
    requires var w := Where(rows, cs, p); es == PrefixEvents(rows, cs, p) + Emitted(w, Next(w.tag, Byte(x)))
    ensures Run(Initial, s) == Trace(es, Config(Error, []))
  {
    PrefixFails(rows, cs, p, x, rest);
  }

  // ------------------------------------------------------------ equality

  /** Test "Check equality": a parse of a string on a fresh parser, with the
      standard allocator and a quiet recorder, leaves the parser in exactly
      the session the machine reaches over the string, so two parsers over
      strings whose runs end alike compare equal and hash alike. */
  lemma SessionAfterParse(s: seq<char>, b: Status, r: Outcome, p: nat, d: seq<Event>, why: Halt, a: Status)
    requires b.session == Initial && !b.faulty && b.snap.throwAt < b.snap.functionCalls
    requires Scanned(s, b, r, p, d, why, a)
    ensures a.session == Run(Initial, s).final
  {
    QuietParse(s, b, r, p, d, why, a);
  }


  lemma Valid01()
    ensures ValidRows([[Plain("A")]])
  {
  }

  lemma Encoding01()
    ensures Encode([[Plain("A")]]) == "A\r\n"
  {
    var rows := [[Plain("A")]];
    assert rows[..0] == [];
  }

  lemma Showing01()
    ensures Shown([[Plain("A")]]) == "{[A]}"
  {
    var rows := [[Plain("A")]];
    assert rows[..0] == [];
  }

  /** The row at line 206 of "Check conversion". */
  lemma Conversion01()
    ensures Converts("A\r\n", "{[A]}")
  {
    Valid01();
    Encoding01();
    Showing01();
    RecordsConvert([[Plain("A")]]);
  }

  lemma Valid02()
    ensures ValidRows([[Plain("ABCDEFGHIJKLMNOPQRSTUVWXYZ")]])
  {
    Capitals("ABCDEFGHIJKLMNOPQRSTUVWXYZ");
  }

  lemma Encoding02()
    ensures Encode([[Plain("ABCDEFGHIJKLMNOPQRSTUVWXYZ")]]) == "ABCDEFGHIJKLMNOPQRSTUVWXYZ\r\n"
  {
    var rows := [[Plain("ABCDEFGHIJKLMNOPQRSTUVWXYZ")]];
    assert rows[..0] == [];
  }

  lemma Showing02()
    ensures Shown([[Plain("ABCDEFGHIJKLMNOPQRSTUVWXYZ")]]) == "{[" + "ABCDEFGHIJKLMNOPQRSTUVWXYZ" + "]}"
  {
    var rows := [[Plain("ABCDEFGHIJKLMNOPQRSTUVWXYZ")]];
    assert rows[..0] == [];
  }

  /** The row at line 207 of "Check conversion". */
  lemma Conversion02()
    ensures Converts("ABCDEFGHIJKLMNOPQRSTUVWXYZ\r\n", "{[" + "ABCDEFGHIJKLMNOPQRSTUVWXYZ" + "]}")
  {
    Valid02();
    Encoding02();
    Showing02();
    RecordsConvert([[Plain("ABCDEFGHIJKLMNOPQRSTUVWXYZ")]]);
  }

  lemma Valid03()
    ensures ValidRows([[Plain("A"), Plain("B")]])
  {
  }

  lemma Encoding03()
    ensures Encode([[Plain("A"), Plain("B")]]) == "A,B\r\n"
  {
    var rows := [[Plain("A"), Plain("B")]];
    assert rows[..0] == [];
  }

  lemma Showing03()
    ensures Shown([[Plain("A"), Plain("B")]]) == "{[A][B]}"
  {
    var rows := [[Plain("A"), Plain("B")]];
    assert rows[..0] == [];
  }

  /** The row at line 208 of "Check conversion". */
  lemma Conversion03()
    ensures Converts("A,B\r\n", "{[A][B]}")
  {
    Valid03();
    Encoding03();
    Showing03();
    RecordsConvert([[Plain("A"), Plain("B")]]);
  }

  lemma Valid04()
    ensures ValidRows([[Plain([]), Plain([])]])
  {
  }

  lemma Encoding04()
    ensures Encode([[Plain([]), Plain([])]]) == ",\r\n"
  {
    var rows := [[Plain([]), Plain([])]];
    assert rows[..0] == [];
  }

  lemma Showing04()
    ensures Shown([[Plain([]), Plain([])]]) == "{[][]}"
  {
    var rows := [[Plain([]), Plain([])]];
    assert rows[..0] == [];
  }

  /** The row at line 209 of "Check conversion". */
  lemma Conversion04()
    ensures Converts(",\r\n", "{[][]}")
  {
    Valid04();
    Encoding04();
    Showing04();
    RecordsConvert([[Plain([]), Plain([])]]);
  }

  lemma Valid05()
    ensures ValidRows([[Plain("AB"), Plain("CD"), Plain("EF")]])
  {
  }

  lemma Encoding05()
    ensures Encode([[Plain("AB"), Plain("CD"), Plain("EF")]]) == "AB,CD,EF\r\n"
  {
    var rows := [[Plain("AB"), Plain("CD"), Plain("EF")]];
    assert rows[..0] == [];
  }

  lemma Showing05()
    ensures Shown([[Plain("AB"), Plain("CD"), Plain("EF")]]) == "{[AB][CD][EF]}"
  {
    var rows := [[Plain("AB"), Plain("CD"), Plain("EF")]];
    assert rows[..0] == [];
  }

  /** The row at line 210 of "Check conversion". */
  lemma Conversion05()
    ensures Converts("AB,CD,EF\r\n", "{[AB][CD][EF]}")
  {
    Valid05();
    Encoding05();
    Showing05();
    RecordsConvert([[Plain("AB"), Plain("CD"), Plain("EF")]]);
  }

  lemma Valid06()
    ensures ValidRows([[Plain("A")], [Plain("B")]])
  {
  }

  lemma Encoding06()
    ensures Encode([[Plain("A")], [Plain("B")]]) == "A\r\nB\r\n"
  {
    var rows := [[Plain("A")], [Plain("B")]];
    assert rows[..1] == [[Plain("A")]] && rows[..1][..0] == [];
  }

  lemma Showing06()
    ensures Shown([[Plain("A")], [Plain("B")]]) == "{[A]}{[B]}"
  {
    var rows := [[Plain("A")], [Plain("B")]];
    assert rows[..1] == [[Plain("A")]] && rows[..1][..0] == [];
  }

  /** The row at line 211 of "Check conversion". */
  lemma Conversion06()
    ensures Converts("A\r\nB\r\n", "{[A]}{[B]}")
  {
    Valid06();
    Encoding06();
    Showing06();
    RecordsConvert([[Plain("A")], [Plain("B")]]);
  }

  lemma Valid07()
    ensures ValidRows([[Plain("A"), Plain("B")], [Plain("C"), Plain("D")]])
  {
  }

  lemma Encoding07()
    ensures Encode([[Plain("A"), Plain("B")], [Plain("C"), Plain("D")]]) == "A,B\r\nC,D\r\n"
  {
    var rows := [[Plain("A"), Plain("B")], [Plain("C"), Plain("D")]];
    assert rows[..1] == [[Plain("A"), Plain("B")]] && rows[..1][..0] == [];
  }

  lemma Showing07()
    ensures Shown([[Plain("A"), Plain("B")], [Plain("C"), Plain("D")]]) == "{[A][B]}{[C][D]}"
  {
    var rows := [[Plain("A"), Plain("B")], [Plain("C"), Plain("D")]];
    assert rows[..1] == [[Plain("A"), Plain("B")]] && rows[..1][..0] == [];
  }

  /** The row at line 212 of "Check conversion". */
  lemma Conversion07()
    ensures Converts("A,B\r\nC,D\r\n", "{[A][B]}{[C][D]}")
  {
    Valid07();
    Encoding07();
    Showing07();
    RecordsConvert([[Plain("A"), Plain("B")], [Plain("C"), Plain("D")]]);
  }

  lemma Valid08()
    ensures ValidRows([[Plain("\r")]])
  {
  }

  lemma Encoding08()
    ensures Encode([[Plain("\r")]]) == "\r\r\n"
  {
    var rows := [[Plain("\r")]];
    assert rows[..0] == [];
  }

  lemma Showing08()
    ensures Shown([[Plain("\r")]]) == "{[\r]}"
  {
    var rows := [[Plain("\r")]];
    assert rows[..0] == [];
  }

  /** The row at line 214 of "Check conversion". */
  lemma Conversion08()
    ensures Converts("\r\r\n", "{[\r]}")
  {
    Valid08();
    Encoding08();
    Showing08();
    RecordsConvert([[Plain("\r")]]);
  }

  lemma Valid09()
    ensures ValidRows([[Plain("A\r")]])
  {
  }

  lemma Encoding09()
    ensures Encode([[Plain("A\r")]]) == "A\r\r\n"
  {
    var rows := [[Plain("A\r")]];
    assert rows[..0] == [];
  }

  lemma Showing09()
    ensures Shown([[Plain("A\r")]]) == "{[A\r]}"
  {
    var rows := [[Plain("A\r")]];
    assert rows[..0] == [];
  }

  /** The row at line 215 of "Check conversion". */
  lemma Conversion09()
    ensures Converts("A\r\r\n", "{[A\r]}")
  {
    Valid09();
    Encoding09();
    Showing09();
    RecordsConvert([[Plain("A\r")]]);
  }

  lemma Valid10()
    ensures ValidRows([[Plain("\rA")]])
  {
  }

  lemma Encoding10()
    ensures Encode([[Plain("\rA")]]) == "\rA\r\n"
  {
    var rows := [[Plain("\rA")]];
    assert rows[..0] == [];
  }

  lemma Showing10()
    ensures Shown([[Plain("\rA")]]) == "{[\rA]}"
  {
    var rows := [[Plain("\rA")]];
    assert rows[..0] == [];
  }

  /** The row at line 216 of "Check conversion". */
  lemma Conversion10()
    ensures Converts("\rA\r\n", "{[\rA]}")
  {
    Valid10();
    Encoding10();
    Showing10();
    RecordsConvert([[Plain("\rA")]]);
  }

  lemma Valid11()
    ensures ValidRows([[Plain("A\rB")]])
  {
  }

  lemma Encoding11()
    ensures Encode([[Plain("A\rB")]]) == "A\rB\r\n"
  {
    var rows := [[Plain("A\rB")]];
    assert rows[..0] == [];
  }

  lemma Showing11()
    ensures Shown([[Plain("A\rB")]]) == "{[A\rB]}"
  {
    var rows := [[Plain("A\rB")]];
    assert rows[..0] == [];
  }

  /** The row at line 217 of "Check conversion". */
  lemma Conversion11()
    ensures Converts("A\rB\r\n", "{[A\rB]}")
  {
    Valid11();
    Encoding11();
    Showing11();
    RecordsConvert([[Plain("A\rB")]]);
  }

  lemma Valid12()
    ensures ValidRows([[Plain("\n")]])
  {
  }

  lemma Encoding12()
    ensures Encode([[Plain("\n")]]) == "\n\r\n"
  {
    var rows := [[Plain("\n")]];
    assert rows[..0] == [];
  }

  lemma Showing12()
    ensures Shown([[Plain("\n")]]) == "{[\n]}"
  {
    var rows := [[Plain("\n")]];
    assert rows[..0] == [];
  }

  /** The row at line 219 of "Check conversion". */
  lemma Conversion12()
    ensures Converts("\n\r\n", "{[\n]}")
  {
    Valid12();
    Encoding12();
    Showing12();
    RecordsConvert([[Plain("\n")]]);
  }

  lemma Valid13()
    ensures ValidRows([[Plain("A\n")]])
  {
  }

  lemma Encoding13()
    ensures Encode([[Plain("A\n")]]) == "A\n\r\n"
  {
    var rows := [[Plain("A\n")]];
    assert rows[..0] == [];
  }

  lemma Showing13()
    ensures Shown([[Plain("A\n")]]) == "{[A\n]}"
  {
    var rows := [[Plain("A\n")]];
    assert rows[..0] == [];
  }

  /** The row at line 220 of "Check conversion". */
  lemma Conversion13()
    ensures Converts("A\n\r\n", "{[A\n]}")
  {
    Valid13();
    Encoding13();
    Showing13();
    RecordsConvert([[Plain("A\n")]]);
  }

  lemma Valid14()
    ensures ValidRows([[Plain("\nA")]])
  {
  }

  lemma Encoding14()
    ensures Encode([[Plain("\nA")]]) == "\nA\r\n"
  {
    var rows := [[Plain("\nA")]];
    assert rows[..0] == [];
  }

  lemma Showing14()
    ensures Shown([[Plain("\nA")]]) == "{[\nA]}"
  {
    var rows := [[Plain("\nA")]];
    assert rows[..0] == [];
  }

  /** The row at line 221 of "Check conversion". */
  lemma Conversion14()
    ensures Converts("\nA\r\n", "{[\nA]}")
  {
    Valid14();
    Encoding14();
    Showing14();
    RecordsConvert([[Plain("\nA")]]);
  }

  lemma Valid15()
    ensures ValidRows([[Plain("A\nB")]])
  {
  }

  lemma Encoding15()
    ensures Encode([[Plain("A\nB")]]) == "A\nB\r\n"
  {
    var rows := [[Plain("A\nB")]];
    assert rows[..0] == [];
  }

  lemma Showing15()
    ensures Shown([[Plain("A\nB")]]) == "{[A\nB]}"
  {
    var rows := [[Plain("A\nB")]];
    assert rows[..0] == [];
  }

  /** The row at line 222 of "Check conversion". */
  lemma Conversion15()
    ensures Converts("A\nB\r\n", "{[A\nB]}")
  {
    Valid15();
    Encoding15();
    Showing15();
    RecordsConvert([[Plain("A\nB")]]);
  }

  lemma Valid16()
    ensures ValidRows([[Quoted([])]])
  {
  }

  lemma Encoding16()
    ensures Encode([[Quoted([])]]) == "\"\"\r\n"
  {
    var rows := [[Quoted([])]];
    assert rows[..0] == [];
  }

  lemma Showing16()
    ensures Shown([[Quoted([])]]) == "{[]}"
  {
    var rows := [[Quoted([])]];
    assert rows[..0] == [];
  }

  /** The row at line 224 of "Check conversion". */
  lemma Conversion16()
    ensures Converts("\"\"\r\n", "{[]}")
  {
    Valid16();
    Encoding16();
    Showing16();
    RecordsConvert([[Quoted([])]]);
  }

  lemma Valid17()
    ensures ValidRows([[Quoted([]), Plain([])]])
  {
  }

  lemma Encoding17()
    ensures Encode([[Quoted([]), Plain([])]]) == "\"\",\r\n"
  {
    var rows := [[Quoted([]), Plain([])]];
    assert rows[..0] == [];
  }

  lemma Showing17()
    ensures Shown([[Quoted([]), Plain([])]]) == "{[][]}"
  {
    var rows := [[Quoted([]), Plain([])]];
    assert rows[..0] == [];
  }

  /** The row at line 225 of "Check conversion". */
  lemma Conversion17()
    ensures Converts("\"\",\r\n", "{[][]}")
  {
    Valid17();
    Encoding17();
    Showing17();
    RecordsConvert([[Quoted([]), Plain([])]]);
  }

  lemma Valid18()
    ensures ValidRows([[Quoted("A")]])
  {
  }

  lemma Encoding18()
    ensures Encode([[Quoted("A")]]) == "\"A\"\r\n"
  {
    var rows := [[Quoted("A")]];
    assert rows[..0] == [];
  }

  lemma Showing18()
    ensures Shown([[Quoted("A")]]) == "{[A]}"
  {
    var rows := [[Quoted("A")]];
    assert rows[..0] == [];
  }

  /** The row at line 226 of "Check conversion". */
  lemma Conversion18()
    ensures Converts("\"A\"\r\n", "{[A]}")
  {
    Valid18();
    Encoding18();
    Showing18();
    RecordsConvert([[Quoted("A")]]);
  }

  lemma Valid19()
    ensures ValidRows([[Quoted("A,B")]])
  {
  }

  lemma Encoding19()
    ensures Encode([[Quoted("A,B")]]) == "\"A,B\"\r\n"
  {
    var rows := [[Quoted("A,B")]];
    assert rows[..0] == [];
  }

  lemma Showing19()
    ensures Shown([[Quoted("A,B")]]) == "{[A,B]}"
  {
    var rows := [[Quoted("A,B")]];
    assert rows[..0] == [];
  }

  /** The row at line 227 of "Check conversion". */
  lemma Conversion19()
    ensures Converts("\"A,B\"\r\n", "{[A,B]}")
  {
    Valid19();
    Encoding19();
    Showing19();
    RecordsConvert([[Quoted("A,B")]]);
  }

  lemma Valid20()
    ensures ValidRows([[Quoted("\n")]])
  {
  }

  lemma Encoding20()
    ensures Encode([[Quoted("\n")]]) == "\"\n\"\r\n"
  {
    var rows := [[Quoted("\n")]];
    assert rows[..0] == [];
  }

  lemma Showing20()
    ensures Shown([[Quoted("\n")]]) == "{[\n]}"
  {
    var rows := [[Quoted("\n")]];
    assert rows[..0] == [];
  }

  /** The row at line 228 of "Check conversion". */
  lemma Conversion20()
    ensures Converts("\"\n\"\r\n", "{[\n]}")
  {
    Valid20();
    Encoding20();
    Showing20();
    RecordsConvert([[Quoted("\n")]]);
  }

  lemma Valid21()
    ensures ValidRows([[Quoted("\r")]])
  {
  }

  lemma Encoding21()
    ensures Encode([[Quoted("\r")]]) == "\"\r\"\r\n"
  {
    var rows := [[Quoted("\r")]];
    assert rows[..0] == [];
  }

  lemma Showing21()
    ensures Shown([[Quoted("\r")]]) == "{[\r]}"
  {
    var rows := [[Quoted("\r")]];
    assert rows[..0] == [];
  }

  /** The row at line 229 of "Check conversion". */
  lemma Conversion21()
    ensures Converts("\"\r\"\r\n", "{[\r]}")
  {
    Valid21();
    Encoding21();
    Showing21();
    RecordsConvert([[Quoted("\r")]]);
  }

  lemma Valid22()
    ensures ValidRows([[Quoted("\r\n")]])
  {
  }

  lemma Encoding22()
    ensures Encode([[Quoted("\r\n")]]) == "\"\r\n\"\r\n"
  {
    var rows := [[Quoted("\r\n")]];
    assert rows[..0] == [];
  }

  lemma Showing22()
    ensures Shown([[Quoted("\r\n")]]) == "{[\r\n]}"
  {
    var rows := [[Quoted("\r\n")]];
    assert rows[..0] == [];
  }

  /** The row at line 230 of "Check conversion". */
  lemma Conversion22()
    ensures Converts("\"\r\n\"\r\n", "{[\r\n]}")
  {
    Valid22();
    Encoding22();
    Showing22();
    RecordsConvert([[Quoted("\r\n")]]);
  }

  lemma Valid23()
    ensures ValidRows([[Quoted("\"")]])
  {
  }

  lemma Encoding23()
    ensures Encode([[Quoted("\"")]]) == "\"\"\"\"\r\n"
  {
    var rows := [[Quoted("\"")]];
    assert rows[..0] == [];
  }

  lemma Showing23()
    ensures Shown([[Quoted("\"")]]) == "{[\"]}"
  {
    var rows := [[Quoted("\"")]];
    assert rows[..0] == [];
  }

  /** The row at line 231 of "Check conversion". */
  lemma Conversion23()
    ensures Converts("\"\"\"\"\r\n", "{[\"]}")
  {
    Valid23();
    Encoding23();
    Showing23();
    RecordsConvert([[Quoted("\"")]]);
  }

  lemma Valid24()
    ensures ValidRows([[Quoted("\"\"")]])
  {
  }

  lemma Encoding24()
    ensures Encode([[Quoted("\"\"")]]) == "\"\"\"\"\"\"\r\n"
  {
    var rows := [[Quoted("\"\"")]];
    assert rows[..0] == [];
  }

  lemma Showing24()
    ensures Shown([[Quoted("\"\"")]]) == "{[\"\"]}"
  {
    var rows := [[Quoted("\"\"")]];
    assert rows[..0] == [];
  }

  /** The row at line 232 of "Check conversion". */
  lemma Conversion24()
    ensures Converts("\"\"\"\"\"\"\r\n", "{[\"\"]}")
  {
    Valid24();
    Encoding24();
    Showing24();
    RecordsConvert([[Quoted("\"\"")]]);
  }

  lemma Valid25()
    ensures ValidRows([[Quoted("\"A\""), Plain("B")]])
  {
  }

  lemma Encoding25()
    ensures Encode([[Quoted("\"A\""), Plain("B")]]) == "\"\"\"A\"\"\",B\r\n"
  {
    var rows := [[Quoted("\"A\""), Plain("B")]];
    assert rows[..0] == [];
  }

  lemma Showing25()
    ensures Shown([[Quoted("\"A\""), Plain("B")]]) == "{[\"A\"][B]}"
  {
    var rows := [[Quoted("\"A\""), Plain("B")]];
    assert rows[..0] == [];
  }

  /** The row at line 233 of "Check conversion". */
  lemma Conversion25()
    ensures Converts("\"\"\"A\"\"\",B\r\n", "{[\"A\"][B]}")
  {
    Valid25();
    Encoding25();
    Showing25();
    RecordsConvert([[Quoted("\"A\""), Plain("B")]]);
  }

  /** Test "Check conversion": every row of its table, the 28-byte record's
      XML written as the concatenation of its parts. */
  lemma ConversionTable()
    ensures Converts("A\r\n", "{[A]}")
    ensures Converts("ABCDEFGHIJKLMNOPQRSTUVWXYZ\r\n", "{[" + "ABCDEFGHIJKLMNOPQRSTUVWXYZ" + "]}")
    ensures Converts("A,B\r\n", "{[A][B]}")
    ensures Converts(",\r\n", "{[][]}")
    ensures Converts("AB,CD,EF\r\n", "{[AB][CD][EF]}")
    ensures Converts("A\r\nB\r\n", "{[A]}{[B]}")
    ensures Converts("A,B\r\nC,D\r\n", "{[A][B]}{[C][D]}")
    ensures Converts("\r\r\n", "{[\r]}")
    ensures Converts("A\r\r\n", "{[A\r]}")
    ensures Converts("\rA\r\n", "{[\rA]}")
    ensures Converts("A\rB\r\n", "{[A\rB]}")
    ensures Converts("\n\r\n", "{[\n]}")
    ensures Converts("A\n\r\n", "{[A\n]}")
    ensures Converts("\nA\r\n", "{[\nA]}")
    ensures Converts("A\nB\r\n", "{[A\nB]}")
    ensures Converts("\"\"\r\n", "{[]}")
    ensures Converts("\"\",\r\n", "{[][]}")
    ensures Converts("\"A\"\r\n", "{[A]}")
    ensures Converts("\"A,B\"\r\n", "{[A,B]}")
    ensures Converts("\"\n\"\r\n", "{[\n]}")
    ensures Converts("\"\r\"\r\n", "{[\r]}")
    ensures Converts("\"\r\n\"\r\n", "{[\r\n]}")
    ensures Converts("\"\"\"\"\r\n", "{[\"]}")
    ensures Converts("\"\"\"\"\"\"\r\n", "{[\"\"]}")
    ensures Converts("\"\"\"A\"\"\",B\r\n", "{[\"A\"][B]}")
  {
    Conversion01();
    Conversion02();
    Conversion03();
    Conversion04();
    Conversion05();
    Conversion06();
    Conversion07();
    Conversion08();
    Conversion09();
    Conversion10();
    Conversion11();
    Conversion12();
    Conversion13();
    Conversion14();
    Conversion15();
    Conversion16();
    Conversion17();
    Conversion18();
    Conversion19();
    Conversion20();
    Conversion21();
    Conversion22();
    Conversion23();
    Conversion24();
    Conversion25();
  }

  lemma Where246()
    ensures ValidRows([[Plain("A")]]) && ValidCells([]) && ValidPartial(Untouched)
    ensures Where([[Plain("A")]], [], Untouched) == Config(StartOfRow, [])
  {
  }

  lemma Bytes246()
    ensures Prefix([[Plain("A")]], [], Untouched) == "A\r\n"
  {
    var rows := [[Plain("A")]];
    assert rows[..0] == [];
  }

  /** The string at line 246 of "Check equality", group 0. */
  lemma Equality246()
    ensures Run(Initial, "A\r\n").final == Config(StartOfRow, [])
  {
    Where246();
    Bytes246();
    PrefixLeaves([[Plain("A")]], [], Untouched, "A\r\n");
  }

  lemma Where247()
    ensures ValidRows([[Plain("B"), Plain("C")]]) && ValidCells([]) && ValidPartial(Untouched)
    ensures Where([[Plain("B"), Plain("C")]], [], Untouched) == Config(StartOfRow, [])
  {
  }

  lemma Bytes247()
    ensures Prefix([[Plain("B"), Plain("C")]], [], Untouched) == "B,C\r\n"
  {
    var rows := [[Plain("B"), Plain("C")]];
    assert rows[..0] == [];
  }

  /** The string at line 247 of "Check equality", group 0. */
  lemma Equality247()
    ensures Run(Initial, "B,C\r\n").final == Config(StartOfRow, [])
  {
    Where247();
    Bytes247();
    PrefixLeaves([[Plain("B"), Plain("C")]], [], Untouched, "B,C\r\n");
  }

  lemma Where253()
    ensures ValidRows([]) && ValidCells([]) && ValidPartial(Bare("\r"))
    ensures Where([], [], Bare("\r")) == Config(FailOnLineFeed, [])
  {
  }

  lemma Bytes253()
    ensures Prefix([], [], Bare("\r")) == "\r"
  {
  }

  /** The string at line 253 of "Check equality", group 10. */
  lemma Equality253()
    ensures Run(Initial, "\r").final == Config(FailOnLineFeed, [])
  {
    Where253();
    Bytes253();
    PrefixLeaves([], [], Bare("\r"), "\r");
  }

  lemma Where256()
    ensures ValidRows([]) && ValidCells([Plain("B")]) && ValidPartial(Untouched)
    ensures Where([], [Plain("B")], Untouched) == Config(StartOfField, [])
  {
  }

  lemma Bytes256()
    ensures Prefix([], [Plain("B")], Untouched) == "B,"
  {
  }

  /** The string at line 256 of "Check equality", group 20. */
  lemma Equality256()
    ensures Run(Initial, "B,").final == Config(StartOfField, [])
  {
    Where256();
    Bytes256();
    PrefixLeaves([], [Plain("B")], Untouched, "B,");
  }

  lemma Where257()
    ensures ValidRows([]) && ValidCells([Quoted("B")]) && ValidPartial(Untouched)
    ensures Where([], [Quoted("B")], Untouched) == Config(StartOfField, [])
  {
  }

  lemma Bytes257()
    ensures Prefix([], [Quoted("B")], Untouched) == "\"B\","
  {
  }

  /** The string at line 257 of "Check equality", group 20. */
  lemma Equality257()
    ensures Run(Initial, "\"B\",").final == Config(StartOfField, [])
  {
    Where257();
    Bytes257();
    PrefixLeaves([], [Quoted("B")], Untouched, "\"B\",");
  }

  lemma Where258()
    ensures ValidRows([]) && ValidCells([Plain([])]) && ValidPartial(Untouched)
    ensures Where([], [Plain([])], Untouched) == Config(StartOfField, [])
  {
  }

  lemma Bytes258()
    ensures Prefix([], [Plain([])], Untouched) == ","
  {
  }

  /** The string at line 258 of "Check equality", group 20. */
  lemma Equality258()
    ensures Run(Initial, ",").final == Config(StartOfField, [])
  {
    Where258();
    Bytes258();
    PrefixLeaves([], [Plain([])], Untouched, ",");
  }

  lemma Where261()
    ensures ValidRows([]) && ValidCells([]) && ValidPartial(OpenQuote([]))
    ensures Where([], [], OpenQuote([])) == Config(InQuotedField, [])
  {
  }

  lemma Bytes261()
    ensures Prefix([], [], OpenQuote([])) == "\""
  {
  }

  /** The string at line 261 of "Check equality", group 30. */
  lemma Equality261()
    ensures Run(Initial, "\"").final == Config(InQuotedField, [])
  {
    Where261();
    Bytes261();
    PrefixLeaves([], [], OpenQuote([]), "\"");
  }

  lemma Where262()
    ensures ValidRows([]) && ValidCells([Plain("A")]) && ValidPartial(OpenQuote([]))
    ensures Where([], [Plain("A")], OpenQuote([])) == Config(InQuotedField, [])
  {
  }

  lemma Bytes262()
    ensures Prefix([], [Plain("A")], OpenQuote([])) == "A,\""
  {
  }

  /** The string at line 262 of "Check equality", group 30. */
  lemma Equality262()
    ensures Run(Initial, "A,\"").final == Config(InQuotedField, [])
  {
    Where262();
    Bytes262();
    PrefixLeaves([], [Plain("A")], OpenQuote([]), "A,\"");
  }

  lemma Where263()
    ensures ValidRows([]) && ValidCells([]) && ValidPartial(OpenQuote("B"))
    ensures Where([], [], OpenQuote("B")) == Config(InQuotedField, "B")
  {
  }

  lemma Bytes263()
    ensures Prefix([], [], OpenQuote("B")) == "\"B"
  {
  }

  /** The string at line 263 of "Check equality", group 31. */
  lemma Equality263()
    ensures Run(Initial, "\"B").final == Config(InQuotedField, "B")
  {
    Where263();
    Bytes263();
    PrefixLeaves([], [], OpenQuote("B"), "\"B");
  }

  lemma Where264()
    ensures ValidRows([]) && ValidCells([Plain("A")]) && ValidPartial(OpenQuote("B"))
    ensures Where([], [Plain("A")], OpenQuote("B")) == Config(InQuotedField, "B")
  {
  }

  lemma Bytes264()
    ensures Prefix([], [Plain("A")], OpenQuote("B")) == "A,\"B"
  {
  }

  /** The string at line 264 of "Check equality", group 31. */
  lemma Equality264()
    ensures Run(Initial, "A,\"B").final == Config(InQuotedField, "B")
  {
    Where264();
    Bytes264();
    PrefixLeaves([], [Plain("A")], OpenQuote("B"), "A,\"B");
  }

  lemma Where265()
    ensures ValidRows([]) && ValidCells([]) && ValidPartial(OpenQuote("C"))
    ensures Where([], [], OpenQuote("C")) == Config(InQuotedField, "C")
  {
  }

  lemma Bytes265()
    ensures Prefix([], [], OpenQuote("C")) == "\"C"
  {
  }

  /** The string at line 265 of "Check equality", group 32. */
  lemma Equality265()
    ensures Run(Initial, "\"C").final == Config(InQuotedField, "C")
  {
    Where265();
    Bytes265();
    PrefixLeaves([], [], OpenQuote("C"), "\"C");
  }

  lemma Where268()
    ensures ValidRows([]) && ValidCells([]) && ValidPartial(Bare("A"))
    ensures Where([], [], Bare("A")) == Config(InUnquotedField, "A")
  {
  }

  lemma Bytes268()
    ensures Prefix([], [], Bare("A")) == "A"
  {
  }

  /** The string at line 268 of "Check equality", group 40. */
  lemma Equality268()
    ensures Run(Initial, "A").final == Config(InUnquotedField, "A")
  {
    Where268();
    Bytes268();
    PrefixLeaves([], [], Bare("A"), "A");
  }

  lemma Where269()
    ensures ValidRows([]) && ValidCells([Plain("B")]) && ValidPartial(Bare("A"))
    ensures Where([], [Plain("B")], Bare("A")) == Config(InUnquotedField, "A")
  {
  }

  lemma Bytes269()
    ensures Prefix([], [Plain("B")], Bare("A")) == "B,A"
  {
  }

  /** The string at line 269 of "Check equality", group 40. */
  lemma Equality269()
    ensures Run(Initial, "B,A").final == Config(InUnquotedField, "A")
  {
    Where269();
    Bytes269();
    PrefixLeaves([], [Plain("B")], Bare("A"), "B,A");
  }

  lemma Where270()
    ensures ValidRows([[Plain("B")]]) && ValidCells([]) && ValidPartial(Bare("A"))
    ensures Where([[Plain("B")]], [], Bare("A")) == Config(InUnquotedField, "A")
  {
  }

  lemma Bytes270()
    ensures Prefix([[Plain("B")]], [], Bare("A")) == "B\r\nA"
  {
    var rows := [[Plain("B")]];
    assert rows[..0] == [];
  }

  /** The string at line 270 of "Check equality", group 40. */
  lemma Equality270()
    ensures Run(Initial, "B\r\nA").final == Config(InUnquotedField, "A")
  {
    Where270();
    Bytes270();
    PrefixLeaves([[Plain("B")]], [], Bare("A"), "B\r\nA");
  }

  lemma Where271()
    ensures ValidRows([]) && ValidCells([]) && ValidPartial(Bare("B"))
    ensures Where([], [], Bare("B")) == Config(InUnquotedField, "B")
  {
  }

  lemma Bytes271()
    ensures Prefix([], [], Bare("B")) == "B"
  {
  }

  /** The string at line 271 of "Check equality", group 41. */
  lemma Equality271()
    ensures Run(Initial, "B").final == Config(InUnquotedField, "B")
  {
    Where271();
    Bytes271();
    PrefixLeaves([], [], Bare("B"), "B");
  }

  lemma Where274()
    ensures ValidRows([]) && ValidCells([]) && ValidPartial(Closed("A"))
    ensures Where([], [], Closed("A")) == Config(InQuote, "A")
  {
  }

  lemma Bytes274()
    ensures Prefix([], [], Closed("A")) == "\"A\""
  {
  }

  /** The string at line 274 of "Check equality", group 50. */
  lemma Equality274()
    ensures Run(Initial, "\"A\"").final == Config(InQuote, "A")
  {
    Where274();
    Bytes274();
    PrefixLeaves([], [], Closed("A"), "\"A\"");
  }

  lemma Where275()
    ensures ValidRows([]) && ValidCells([Plain("B")]) && ValidPartial(Closed("A"))
    ensures Where([], [Plain("B")], Closed("A")) == Config(InQuote, "A")
  {
  }

  lemma Bytes275()
    ensures Prefix([], [Plain("B")], Closed("A")) == "B,\"A\""
  {
  }

  /** The string at line 275 of "Check equality", group 50. */
  lemma Equality275()
    ensures Run(Initial, "B,\"A\"").final == Config(InQuote, "A")
  {
    Where275();
    Bytes275();
    PrefixLeaves([], [Plain("B")], Closed("A"), "B,\"A\"");
  }

  lemma Where276()
    ensures ValidRows([]) && ValidCells([]) && ValidPartial(Closed("B"))
    ensures Where([], [], Closed("B")) == Config(InQuote, "B")
  {
  }

  lemma Bytes276()
    ensures Prefix([], [], Closed("B")) == "\"B\""
  {
  }

  /** The string at line 276 of "Check equality", group 51. */
  lemma Equality276()
    ensures Run(Initial, "\"B\"").final == Config(InQuote, "B")
  {
    Where276();
    Bytes276();
    PrefixLeaves([], [], Closed("B"), "\"B\"");
  }

  lemma Where279()
    ensures ValidRows([]) && ValidCells([Plain([])]) && ValidPartial(Bare("\r"))
    ensures Where([], [Plain([])], Bare("\r")) == Config(InNewLine, [])
  {
  }

  lemma Bytes279()
    ensures Prefix([], [Plain([])], Bare("\r")) == ",\r"
  {
  }

  /** The string at line 279 of "Check equality", group 60. */
  lemma Equality279()
    ensures Run(Initial, ",\r").final == Config(InNewLine, [])
  {
    Where279();
    Bytes279();
    PrefixLeaves([], [Plain([])], Bare("\r"), ",\r");
  }

  lemma Where280()
    ensures ValidRows([]) && ValidCells([]) && ValidPartial(Bare("A\r"))
    ensures Where([], [], Bare("A\r")) == Config(InNewLine, "A")
  {
  }

  lemma Bytes280()
    ensures Prefix([], [], Bare("A\r")) == "A\r"
  {
  }

  /** The string at line 280 of "Check equality", group 61. */
  lemma Equality280()
    ensures Run(Initial, "A\r").final == Config(InNewLine, "A")
  {
    Where280();
    Bytes280();
    PrefixLeaves([], [], Bare("A\r"), "A\r");
  }

  lemma Where283()
    ensures ValidRows([]) && ValidCells([]) && ValidPartial(ClosedCr([]))
    ensures Where([], [], ClosedCr([])) == Config(RequireLineFeed, [])
  {
  }

  lemma Bytes283()
    ensures Prefix([], [], ClosedCr([])) == "\"\"\r"
  {
  }

  /** The string at line 283 of "Check equality", group 70. */
  lemma Equality283()
    ensures Run(Initial, "\"\"\r").final == Config(RequireLineFeed, [])
  {
    Where283();
    Bytes283();
    PrefixLeaves([], [], ClosedCr([]), "\"\"\r");
  }

  lemma Where284()
    ensures ValidRows([]) && ValidCells([Plain([])]) && ValidPartial(ClosedCr([]))
    ensures Where([], [Plain([])], ClosedCr([])) == Config(RequireLineFeed, [])
  {
  }

  lemma Bytes284()
    ensures Prefix([], [Plain([])], ClosedCr([])) == ",\"\"\r"
  {
  }

  /** The string at line 284 of "Check equality", group 70. */
  lemma Equality284()
    ensures Run(Initial, ",\"\"\r").final == Config(RequireLineFeed, [])
  {
    Where284();
    Bytes284();
    PrefixLeaves([], [Plain([])], ClosedCr([]), ",\"\"\r");
  }

  lemma Where285()
    ensures ValidRows([]) && ValidCells([]) && ValidPartial(ClosedCr("A"))
    ensures Where([], [], ClosedCr("A")) == Config(RequireLineFeed, "A")
  {
  }

  lemma Bytes285()
    ensures Prefix([], [], ClosedCr("A")) == "\"A\"\r"
  {
  }

  /** The string at line 285 of "Check equality", group 71. */
  lemma Equality285()
    ensures Run(Initial, "\"A\"\r").final == Config(RequireLineFeed, "A")
  {
    Where285();
    Bytes285();
    PrefixLeaves([], [], ClosedCr("A"), "\"A\"\r");
  }

  lemma Where293()
    ensures ValidRows([]) && ValidCells([]) && ValidPartial(Bare("A"))
    ensures Where([], [], Bare("A")) == Config(InUnquotedField, "A")
  {
  }

  lemma Bytes293()
    ensures Prefix([], [], Bare("A")) + ['"'] + [] == "A\""
  {
  }

  lemma Events293()
    ensures var w := Where([], [], Bare("A"));
      PrefixEvents([], [], Bare("A")) + Emitted(w, Next(w.tag, Byte('"'))) == [StartRow, Raise(MisplacedDoubleQuotes)]
  {
  }

  /** The string at line 293 of "Check equality", group 80. */
  lemma Equality293()
    ensures Run(Initial, "A\"").final == Config(Error, [])
  {
    Where293();
    Bytes293();
    Events293();
    PrefixRejects([], [], Bare("A"), '"', [], "A\"", [StartRow, Raise(MisplacedDoubleQuotes)]);
  }

  lemma Where294()
    ensures ValidRows([]) && ValidCells([]) && ValidPartial(Closed([]))
    ensures Where([], [], Closed([])) == Config(InQuote, [])
  {
  }

  lemma Bytes294()
    ensures Prefix([], [], Closed([])) + ['A'] + [] == "\"\"A"
  {
  }

  lemma Events294()
    ensures var w := Where([], [], Closed([]));
      PrefixEvents([], [], Closed([])) + Emitted(w, Next(w.tag, Byte('A'))) == [StartRow, Raise(TextAfterClosingQuotes)]
  {
  }

  /** The string at line 294 of "Check equality", group 80. */
  lemma Equality294()
    ensures Run(Initial, "\"\"A").final == Config(Error, [])
  {
    Where294();
    Bytes294();
    Events294();
    PrefixRejects([], [], Closed([]), 'A', [], "\"\"A", [StartRow, Raise(TextAfterClosingQuotes)]);
  }

  lemma Where295()
    ensures ValidRows([]) && ValidCells([]) && ValidPartial(ClosedCr([]))
    ensures Where([], [], ClosedCr([])) == Config(RequireLineFeed, [])
  {
  }

  lemma Bytes295()
    ensures Prefix([], [], ClosedCr([])) + [','] + [] == "\"\"\r,"
  {
  }

  lemma Events295()
    ensures var w := Where([], [], ClosedCr([]));
      PrefixEvents([], [], ClosedCr([])) + Emitted(w, Next(w.tag, Byte(','))) == [StartRow, Raise(UnfinishedCrlf)]
  {
  }

  /** The string at line 295 of "Check equality", group 80. */
  lemma Equality295()
    ensures Run(Initial, "\"\"\r,").final == Config(Error, [])
  {
    Where295();
    Bytes295();
    Events295();
    PrefixRejects([], [], ClosedCr([]), ',', [], "\"\"\r,", [StartRow, Raise(UnfinishedCrlf)]);
  }

  /** Test "Check equality": the session each string of the table leaves a
      fresh parser in. Strings of a group leave equal sessions, the strings
      of different groups different ones, and all three failed strings the
      same, whatever their error; the unparsed parser of the first row is
      in `Begin`, unlike any of them. */
  lemma EqualityTable()
    ensures Initial == Config(Begin, []) && Initial != Config(StartOfRow, [])
    ensures Run(Initial, "A\r\n").final == Config(StartOfRow, [])
    ensures Run(Initial, "B,C\r\n").final == Config(StartOfRow, [])
    ensures Run(Initial, "\r").final == Config(FailOnLineFeed, [])
    ensures Run(Initial, "B,").final == Config(StartOfField, [])
    ensures Run(Initial, "\"B\",").final == Config(StartOfField, [])
    ensures Run(Initial, ",").final == Config(StartOfField, [])
    ensures Run(Initial, "\"").final == Config(InQuotedField, [])
    ensures Run(Initial, "A,\"").final == Config(InQuotedField, [])
    ensures Run(Initial, "\"B").final == Config(InQuotedField, "B")
    ensures Run(Initial, "A,\"B").final == Config(InQuotedField, "B")
    ensures Run(Initial, "\"C").final == Config(InQuotedField, "C")
    ensures Run(Initial, "A").final == Config(InUnquotedField, "A")
    ensures Run(Initial, "B,A").final == Config(InUnquotedField, "A")
    ensures Run(Initial, "B\r\nA").final == Config(InUnquotedField, "A")
    ensures Run(Initial, "B").final == Config(InUnquotedField, "B")
    ensures Run(Initial, "\"A\"").final == Config(InQuote, "A")
    ensures Run(Initial, "B,\"A\"").final == Config(InQuote, "A")
    ensures Run(Initial, "\"B\"").final == Config(InQuote, "B")
    ensures Run(Initial, ",\r").final == Config(InNewLine, [])
    ensures Run(Initial, "A\r").final == Config(InNewLine, "A")
    ensures Run(Initial, "\"\"\r").final == Config(RequireLineFeed, [])
    ensures Run(Initial, ",\"\"\r").final == Config(RequireLineFeed, [])
    ensures Run(Initial, "\"A\"\r").final == Config(RequireLineFeed, "A")
    ensures Run(Initial, "A\"").final == Config(Error, [])
    ensures Run(Initial, "\"\"A").final == Config(Error, [])
    ensures Run(Initial, "\"\"\r,").final == Config(Error, [])
  {
    Equality246();
    Equality247();
    Equality253();
    Equality256();
    Equality257();
    Equality258();
    Equality261();
    Equality262();
    Equality263();
    Equality264();
    Equality265();
    Equality268();
    Equality269();
    Equality270();
    Equality271();
    Equality274();
    Equality275();
    Equality276();
    Equality279();
    Equality280();
    Equality283();
    Equality284();
    Equality285();
    Equality293();
    Equality294();
    Equality295();
  }

  /** The sessions of "Check equality", one per group: the unparsed parser
      first, then the session each group of strings leaves. */
  function Groups(): seq<Config> {
    [ Initial,
      Config(StartOfRow, []),
      Config(FailOnLineFeed, []),
      Config(StartOfField, []),
      Config(InQuotedField, []),
      Config(InQuotedField, "B"),
      Config(InQuotedField, "C"),
      Config(InUnquotedField, "A"),
      Config(InUnquotedField, "B"),
      Config(InQuote, "A"),
      Config(InQuote, "B"),
      Config(InNewLine, []),
      Config(InNewLine, "A"),
      Config(RequireLineFeed, []),
      Config(RequireLineFeed, "A"),
      Config(Error, []) ]
  }

  lemma GroupsDistinct()
    ensures forall i, j :: 0 <= i < j < |Groups()| ==> Groups()[i] != Groups()[j]
  {
  }

  lemma GroupsBytes()
    ensures forall k :: 0 <= k < |Groups()| ==> Bytes(Groups()[k].pending)
  {
  }

  /** `hash()` tells the groups apart: the sessions of two different groups
      hash differently. */
  lemma GroupHashes()
    ensures forall i, j :: 0 <= i < j < |Groups()| ==> SessionHash(Groups()[i]) != SessionHash(Groups()[j])
  {
    var g := Groups();
    GroupsDistinct();
    GroupsBytes();
    forall i, j | 0 <= i < j < |g| ensures SessionHash(g[i]) != SessionHash(g[j]) {
      HashSeparates(g[i], g[j]);
    }
  }

  lemma Where388()
    ensures ValidRows([]) && ValidCells([]) && ValidPartial(Bare("misplaced "))
    ensures Where([], [], Bare("misplaced ")) == Config(InUnquotedField, "misplaced ")
  {
  }

  lemma Bytes388()
    ensures Prefix([], [], Bare("misplaced ")) + ['"'] + "quotes\"\r\n" == "misplaced \"quotes\"\r\n"
  {
  }

  lemma Events388()
    ensures var w := Where([], [], Bare("misplaced "));
      PrefixEvents([], [], Bare("misplaced ")) + Emitted(w, Next(w.tag, Byte('"'))) == [StartRow, Raise(MisplacedDoubleQuotes)]
  {
  }

  /** The document at line 388 of "CSV errors are detected". */
  lemma Rejected388()
    ensures Run(Initial, "misplaced \"quotes\"\r\n") == Trace([StartRow, Raise(MisplacedDoubleQuotes)], Config(Error, []))
  {
    Where388();
    Bytes388();
    Events388();
    PrefixRejects([], [], Bare("misplaced "), '"', "quotes\"\r\n", "misplaced \"quotes\"\r\n", [StartRow, Raise(MisplacedDoubleQuotes)]);
  }

  lemma Where397()
    ensures ValidRows([]) && ValidCells([]) && ValidPartial(Closed("field"))
    ensures Where([], [], Closed("field")) == Config(InQuote, "field")
  {
  }

  lemma Head397()
    ensures Prefix([], [], Closed("field")) == "\"field\""
  {
    ClosedAlone("field");
  }

  lemma Bytes397()
    ensures Prefix([], [], Closed("field")) + [' '] + "bad text" == "\"field\" bad text"
  {
    Head397();
  }

  lemma Events397()
    ensures var w := Where([], [], Closed("field"));
      PrefixEvents([], [], Closed("field")) + Emitted(w, Next(w.tag, Byte(' '))) == [StartRow, Raise(TextAfterClosingQuotes)]
  {
  }

  /** The document at line 397 of "CSV errors are detected". */
  lemma Rejected397()
    ensures Run(Initial, "\"field\" bad text") == Trace([StartRow, Raise(TextAfterClosingQuotes)], Config(Error, []))
  {
    Where397();
    Bytes397();
    Events397();
    PrefixRejects([], [], Closed("field"), ' ', "bad text", "\"field\" bad text", [StartRow, Raise(TextAfterClosingQuotes)]);
  }

  lemma Where406()
    ensures ValidRows([]) && ValidCells([Plain("a")]) && ValidPartial(ClosedCr("b"))
    ensures Where([], [Plain("a")], ClosedCr("b")) == Config(RequireLineFeed, "b")
  {
  }

  lemma Bytes406()
    ensures Prefix([], [Plain("a")], ClosedCr("b")) + ['c'] + ",d" == "a,\"b\"\rc,d"
  {
  }

  lemma Events406()
    ensures var w := Where([], [Plain("a")], ClosedCr("b"));
      PrefixEvents([], [Plain("a")], ClosedCr("b")) + Emitted(w, Next(w.tag, Byte('c'))) == [StartRow, Field("a"), Raise(UnfinishedCrlf)]
  {
  }

  /** The document at line 406 of "CSV errors are detected". */
  lemma Rejected406()
    ensures Run(Initial, "a,\"b\"\rc,d") == Trace([StartRow, Field("a"), Raise(UnfinishedCrlf)], Config(Error, []))
  {
    Where406();
    Bytes406();
    Events406();
    PrefixRejects([], [Plain("a")], ClosedCr("b"), 'c', ",d", "a,\"b\"\rc,d", [StartRow, Field("a"), Raise(UnfinishedCrlf)]);
  }

  lemma Where425()
    ensures ValidRows([[Plain("a")]]) && ValidCells([]) && ValidPartial(Bare("\r"))
    ensures Where([[Plain("a")]], [], Bare("\r")) == Config(FailOnLineFeed, [])
  {
  }

  lemma Bytes425()
    ensures Prefix([[Plain("a")]], [], Bare("\r")) + ['\n'] + [] == "a\r\n\r\n"
  {
    var rows := [[Plain("a")]];
    assert rows[..0] == [];
  }

  lemma Events425()
    ensures var w := Where([[Plain("a")]], [], Bare("\r"));
      PrefixEvents([[Plain("a")]], [], Bare("\r")) + Emitted(w, Next(w.tag, Byte('\n'))) == [StartRow, Field("a"), EndRow, StartRow, Raise(NoFieldsInRecord)]
  {
    var rows := [[Plain("a")]];
    assert rows[..0] == [];
  }

  /** The document at line 425 of "CSV errors are detected". */
  lemma Rejected425()
    ensures Run(Initial, "a\r\n\r\n") == Trace([StartRow, Field("a"), EndRow, StartRow, Raise(NoFieldsInRecord)], Config(Error, []))
  {
    Where425();
    Bytes425();
    Events425();
    PrefixRejects([[Plain("a")]], [], Bare("\r"), '\n', [], "a\r\n\r\n", [StartRow, Field("a"), EndRow, StartRow, Raise(NoFieldsInRecord)]);
  }

  /** Test "CSV errors are detected": each of its documents that `parse`
      rejects fails with the error the test expects. */
  lemma ErrorTable()
    ensures Rejects("misplaced \"quotes\"\r\n", MisplacedDoubleQuotes)
    ensures Rejects("\"field\" bad text", TextAfterClosingQuotes)
    ensures Rejects("a,\"b\"\rc,d", UnfinishedCrlf)
    ensures Rejects("a\r\n\r\n", NoFieldsInRecord)
  {
    Rejected388();
    Rejected397();
    Rejected406();
    Rejected425();
  }}
