/** Records as the CSV dialect writes them, and what the state machine makes
    of them: an encoder from rows of cells to bytes, and the proof that the
    machine decodes every well-formed encoding back into exactly the events
    of its rows, whether or not the last record separator is present. */
module CsvRecords {
  import opened Csv

  /** A field as written: bare, or between double quotes. */
  datatype Cell = Plain(text: seq<char>) | Quoted(text: seq<char>)

  /** The body of a quoted field: every double quote doubled. */
  function Escape(t: seq<char>): seq<char> {
    if t == [] then []
    else (if t[0] == Quote then [Quote, Quote] else [t[0]]) + Escape(t[1..])
  }

  /** Bytes that may stand bare in a field: no comma, no double quote, and
      no CR immediately followed by LF. A lone CR or LF is field data. */
  predicate PlainText(t: seq<char>) {
    (forall i :: 0 <= i < |t| ==> t[i] != Comma && t[i] != Quote) &&
    (forall i :: 0 < i < |t| ==> !(t[i - 1] == CR && t[i] == LF))
  }

  /** The states a field is opened in. */
  predicate Opening(o: Tag) {
    o == FirstFieldOfRecord || o == StartOfField
  }

  /** The bytes between two fields, or at the end of a record. */
  function Separator(last: bool): seq<char> {
    if last then [CR, LF] else [Comma]
  }

  /** Where a field leaves the machine: at the start of the next field, or
      at the start of the next record. */
  function After(last: bool): Tag {
    if last then StartOfRow else StartOfField
  }

  /** The events a field delivers: the field, and the end of the record
      after the last one. */
  function Delivered(t: seq<char>, last: bool): seq<Event> {
    if last then [Field(t), EndRow] else [Field(t)]
  }

  // ---------------------------------------------------------------- endings

  lemma FieldDone(t: seq<char>)
    ensures Leads(Config(EndOfField, t), [], [Field(t)], Config(StartOfField, []))
  {
    LeadsNil(Config(StartOfField, []));
    FlushLeads(Config(EndOfField, t), [], [], Config(StartOfField, []));
  }

  lemma RowEnds()
    ensures Leads(Config(EndOfRow, []), [], [EndRow], Config(StartOfRow, []))
  {
    var c := Config(EndOfRow, []);
    assert Apply(c, Flush(EndOfRow)) == Config(StartOfRow, []);
    assert Emitted(c, Flush(EndOfRow)) == [EndRow];
    LeadsNil(Config(StartOfRow, []));
    FlushLeads(c, [], [], Config(StartOfRow, []));
    assert [EndRow] + [] == [EndRow];
  }

  lemma RowDone(t: seq<char>)
    ensures Leads(Config(EndOfLastField, t), [], [Field(t), EndRow], Config(StartOfRow, []))
  {
    var c := Config(EndOfLastField, t);
    assert Apply(c, Flush(EndOfLastField)) == Config(EndOfRow, []);
    assert Emitted(c, Flush(EndOfLastField)) == [Field(t)];
    RowEnds();
    FlushLeads(c, [], [EndRow], Config(StartOfRow, []));
    assert [Field(t)] + [EndRow] == [Field(t), EndRow];
  }

  /** A comma or a CRLF after an unquoted field delivers it. */
  lemma UnquotedClose(t: seq<char>, last: bool)
    ensures Leads(Config(InUnquotedField, t), Separator(last), Delivered(t, last), Config(After(last), []))
  {
    var c := Config(InUnquotedField, t);
    if last {
      StepLeads(c, CR);
      StepLeads(Config(InNewLine, t), LF);
      RowDone(t);
      LeadsTrans(Config(InNewLine, t), [LF], [], Config(EndOfLastField, t), [], [Field(t), EndRow], Config(StartOfRow, []));
      assert [LF] + [] == [LF] && [] + [Field(t), EndRow] == [Field(t), EndRow];
      LeadsTrans(c, [CR], [], Config(InNewLine, t), [LF], [Field(t), EndRow], Config(StartOfRow, []));
      assert [CR] + [LF] == [CR, LF];
    } else {
      StepLeads(c, Comma);
      FieldDone(t);
      LeadsTrans(c, [Comma], [], Config(EndOfField, t), [], [Field(t)], Config(StartOfField, []));
      assert [Comma] + [] == [Comma] && [] + [Field(t)] == [Field(t)];
    }
  }

  /** A comma or a CRLF after a closing double quote delivers the field. */
  lemma QuoteClose(t: seq<char>, last: bool)
    ensures Leads(Config(InQuote, t), Separator(last), Delivered(t, last), Config(After(last), []))
  {
    var c := Config(InQuote, t);
    if last {
      StepLeads(c, CR);
      StepLeads(Config(RequireLineFeed, t), LF);
      RowDone(t);
      LeadsTrans(Config(RequireLineFeed, t), [LF], [], Config(EndOfLastField, t), [], [Field(t), EndRow], Config(StartOfRow, []));
      assert [LF] + [] == [LF] && [] + [Field(t), EndRow] == [Field(t), EndRow];
      LeadsTrans(c, [CR], [], Config(RequireLineFeed, t), [LF], [Field(t), EndRow], Config(StartOfRow, []));
      assert [CR] + [LF] == [CR, LF];
    } else {
      StepLeads(c, Comma);
      FieldDone(t);
      LeadsTrans(c, [Comma], [], Config(EndOfField, t), [], [Field(t)], Config(StartOfField, []));
      assert [Comma] + [] == [Comma] && [] + [Field(t)] == [Field(t)];
    }
  }

  /** `finish` once the last field is complete delivers it and ends the
      record. */
  lemma FinishRow(t: seq<char>)
    ensures Finish(Config(EndOfLastField, t)) == Trace([Field(t), EndRow], Config(StartOfRow, []))
  {
    var c := Config(EndOfLastField, t);
    assert Finish(Config(EndOfRow, [])) == Trace([EndRow], Config(StartOfRow, []));
    assert Finish(c) == Prepend([Field(t)], Finish(Config(EndOfRow, [])));
  }

  /** With nothing left to read, `parse` stops at once and only `finish`
      acts. */
  lemma CompleteNil(c: Config)
    requires c.tag != Error && !Eventful(c.tag)
    ensures Complete(c, []) == Finish(c)
  {
    assert Run(c, []) == Trace([], c);
    assert [] + Finish(c).events == Finish(c).events;
  }

  /** `finish` in an unquoted field, or after a closing double quote, delivers
      the field and ends the record. */
  lemma FinishOpen(tag: Tag, t: seq<char>)
    requires tag == InUnquotedField || tag == InQuote
    ensures Finish(Config(tag, t)) == Trace([Field(t), EndRow], Config(StartOfRow, []))
  {
    var c, st := Config(tag, t), Next(tag, End);
    assert st == Step(false, Hold, Silent, EndOfLastField);
    assert Apply(c, st) == Config(EndOfLastField, t) && Emitted(c, st) == [];
    FinishRow(t);
    assert Finish(c) == Prepend([], Finish(Apply(c, st)));
  }

  /** `finish` with a CR held back keeps the CR as field data. */
  lemma FinishHeld(tag: Tag, q: seq<char>)
    requires tag == FailOnLineFeed || tag == InNewLine
    ensures Finish(Config(tag, q)) == Trace([Field(q + [CR]), EndRow], Config(StartOfRow, []))
  {
    var c, st := Config(tag, q), Next(tag, End);
    assert st == Step(false, Put(CR), Silent, InUnquotedField);
    assert Apply(c, st) == Config(InUnquotedField, q + [CR]) && Emitted(c, st) == [];
    FinishOpen(InUnquotedField, q + [CR]);
    assert Finish(c) == Prepend([], Finish(Apply(c, st)));
  }

  lemma FinishField(tag: Tag, t: seq<char>)
    requires tag == InUnquotedField || tag == InQuote
    ensures Complete(Config(tag, t), []) == Trace([Field(t), EndRow], Config(StartOfRow, []))
  {
    CompleteNil(Config(tag, t));
    FinishOpen(tag, t);
  }

  // ---------------------------------------------------------- quoted fields

  lemma QuotedOpen(o: Tag, p: seq<char>)
    requires Opening(o)
    ensures Leads(Config(o, p), [Quote], [], Config(InQuotedField, []))
  {
    StepLeads(Config(o, p), Quote);
  }

  /** A doubled double quote in a quoted field buffers one double quote. */
  lemma QuotedPair(p: seq<char>)
    ensures Leads(Config(InQuotedField, p), [Quote, Quote], [], Config(InQuotedField, p + [Quote]))
  {
    StepLeads(Config(InQuotedField, p), Quote);
    StepLeads(Config(InQuote, p), Quote);
    LeadsTrans(Config(InQuotedField, p), [Quote], [], Config(InQuote, p), [Quote], [], Config(InQuotedField, p + [Quote]));
    assert [Quote] + [Quote] == [Quote, Quote];
  }

  /** Reading an escaped body inside a quoted field buffers the unescaped
      bytes. */
  lemma {:induction false} QuotedBody(p: seq<char>, t: seq<char>)
    ensures Leads(Config(InQuotedField, p), Escape(t), [], Config(InQuotedField, p + t))
    decreases |t|
  {
    if t == [] {
      assert p + t == p;
      LeadsNil(Config(InQuotedField, p));
    } else {
      var x, t' := t[0], t[1..];
      var piece := if x == Quote then [Quote, Quote] else [x];
      if x == Quote {
        QuotedPair(p);
      } else {
        StepLeads(Config(InQuotedField, p), x);
      }
      QuotedBody(p + [x], t');
      assert (p + [x]) + t' == p + t;
      LeadsTrans(Config(InQuotedField, p), piece, [], Config(InQuotedField, p + [x]), Escape(t'), [], Config(InQuotedField, p + t));
    }
  }

  // ------------------------------------------------------------ bare fields

  /** Where the machine is after the bare bytes `t` of a field opened in `o`:
      a trailing CR is held back until the next byte shows whether it starts
      a record separator. */
  function BareAfter(o: Tag, t: seq<char>): Config
    requires t != []
  {
    if t[|t| - 1] == CR then
      Config(if |t| == 1 && o == FirstFieldOfRecord then FailOnLineFeed else InNewLine, t[..|t| - 1])
    else Config(InUnquotedField, t)
  }

  /** One bare byte read in an unquoted field. */
  lemma UnquotedRead(q: seq<char>, x: char)
    requires x != Comma && x != Quote
    ensures Leads(Config(InUnquotedField, q), [x], [],
                  if x == CR then Config(InNewLine, q) else Config(InUnquotedField, q + [x]))
  {
    StepLeads(Config(InUnquotedField, q), x);
  }

  /** A CR held back in `InNewLine` or `FailOnLineFeed` that turns out not to
      start a record separator joins the field as data. */
  lemma HeldCr(q: seq<char>, a: seq<char>, e: seq<Event>, d: Config)
    requires a != [] && a[0] != LF && Leads(Config(InUnquotedField, q + [CR]), a, e, d)
    ensures Leads(Config(InNewLine, q), a, e, d)
    ensures Leads(Config(FailOnLineFeed, q), a, e, d)
  {
    var put := Step(false, Put(CR), Silent, InUnquotedField);
    assert Next(InNewLine, Byte(a[0])) == put && Next(FailOnLineFeed, Byte(a[0])) == put;
    assert Apply(Config(InNewLine, q), put) == Config(InUnquotedField, q + [CR]);
    assert Apply(Config(FailOnLineFeed, q), put) == Config(InUnquotedField, q + [CR]);
    assert Emitted(Config(InNewLine, q), put) + e == e;
    assert Emitted(Config(FailOnLineFeed, q), put) + e == e;
    PeekLeads(Config(InNewLine, q), a, e, d);
    PeekLeads(Config(FailOnLineFeed, q), a, e, d);
  }

  lemma BareFirst(o: Tag, p: seq<char>, x: char)
    requires Opening(o) && x != Comma && x != Quote
    ensures Leads(Config(o, p), [x], [], BareAfter(o, [x]))
  {
    var c := Config(o, p);
    if x == CR {
      assert Next(o, Byte(CR)) == Step(true, Open, Silent, BareAfter(o, [x]).tag);
      StepLeads(c, CR);
      assert Apply(c, Next(o, Byte(CR))) == BareAfter(o, [x]);
    } else {
      var st := Next(o, Byte(x));
      assert st == Step(false, Open, Silent, InUnquotedField);
      assert Apply(c, st) == Config(InUnquotedField, []) && Emitted(c, st) == [];
      UnquotedRead([], x);
      assert [] + [x] == [x];
      PeekLeads(c, [x], [], Config(InUnquotedField, [x]));
    }
  }

  lemma BareStep(o: Tag, t: seq<char>, x: char)
    requires t != [] && PlainText(t + [x])
    ensures Leads(BareAfter(o, t), [x], [], BareAfter(o, t + [x]))
  {
    var u := t + [x];
    assert u[|t|] == x && u[|t| - 1] == t[|t| - 1] && u[..|t|] == t;
    assert x != Comma && x != Quote;
    if t[|t| - 1] == CR {
      assert x != LF;
      var q := t[..|t| - 1];
      assert q + [CR] == t;
      UnquotedRead(t, x);
      HeldCr(q, [x], [], BareAfter(o, u));
    } else {
      UnquotedRead(t, x);
    }
  }

  /** The bare bytes of a field, read from the state that opens it. */
  lemma {:induction false} BareBody(o: Tag, p: seq<char>, t: seq<char>)
    requires Opening(o) && t != [] && PlainText(t)
    ensures Leads(Config(o, p), t, [], BareAfter(o, t))
    decreases |t|
  {
    if |t| == 1 {
      assert t == [t[0]];
      BareFirst(o, p, t[0]);
    } else {
      var t0, x := t[..|t| - 1], t[|t| - 1];
      assert t0 + [x] == t;
      assert PlainText(t0) by {
        forall i | 0 <= i < |t0| ensures t0[i] == t[i] { }
      }
      BareBody(o, p, t0);
      BareStep(o, t0, x);
      LeadsTrans(Config(o, p), t0, [], BareAfter(o, t0), [x], [], BareAfter(o, t));
    }
  }

  /** The separator after a bare field delivers it whole, held-back CR
      included. */
  lemma BareClose(o: Tag, t: seq<char>, last: bool)
    requires t != []
    ensures Leads(BareAfter(o, t), Separator(last), Delivered(t, last), Config(After(last), []))
  {
    UnquotedClose(t, last);
    if t[|t| - 1] == CR {
      var q := t[..|t| - 1];
      assert q + [CR] == t;
      HeldCr(q, Separator(last), Delivered(t, last), Config(After(last), []));
    }
  }

  /** `finish` after a bare field delivers it whole and ends the record. */
  lemma BareEnd(o: Tag, t: seq<char>)
    requires t != []
    ensures Complete(BareAfter(o, t), []) == Trace([Field(t), EndRow], Config(StartOfRow, []))
  {
    var c := BareAfter(o, t);
    CompleteNil(c);
    if t[|t| - 1] == CR {
      var q := t[..|t| - 1];
      assert q + [CR] == t;
      FinishHeld(c.tag, q);
    } else {
      FinishOpen(InUnquotedField, t);
    }
  }

  /** An empty field is delivered by the separator that follows it. A record
      cannot start with an empty last field: a CRLF there is an empty record. */
  lemma EmptyField(o: Tag, p: seq<char>, last: bool)
    requires Opening(o) && !(last && o == FirstFieldOfRecord)
    ensures Leads(Config(o, p), Separator(last), Delivered([], last), Config(After(last), []))
  {
    if last {
      StepLeads(Config(o, p), CR);
      StepLeads(Config(InNewLine, []), LF);
      RowDone([]);
      LeadsTrans(Config(InNewLine, []), [LF], [], Config(EndOfLastField, []), [], [Field([]), EndRow], Config(StartOfRow, []));
      assert [LF] + [] == [LF] && [] + [Field([]), EndRow] == [Field([]), EndRow];
      LeadsTrans(Config(o, p), [CR], [], Config(InNewLine, []), [LF], [Field([]), EndRow], Config(StartOfRow, []));
      assert [CR] + [LF] == [CR, LF];
    } else {
      StepLeads(Config(o, p), Comma);
      FieldDone([]);
      LeadsTrans(Config(o, p), [Comma], [], Config(EndOfField, []), [], [Field([])], Config(StartOfField, []));
      assert [Comma] + [] == [Comma] && [] + [Field([])] == [Field([])];
    }
  }

  /** `finish` at the start of a field delivers it empty and ends the record. */
  lemma EmptyEnd(p: seq<char>)
    ensures Complete(Config(StartOfField, p), []) == Trace([Field([]), EndRow], Config(StartOfRow, []))
  {
    var c := Config(StartOfField, p);
    CompleteNil(c);
    FinishRow([]);
    assert Finish(c) == Prepend([], Finish(Config(EndOfLastField, [])));
  }

  // ------------------------------------------------------------------ cells

  /** The bytes of one cell. */
  function EncodeCell(c: Cell): seq<char> {
    match c
    case Plain(t) => t
    case Quoted(t) => [Quote] + Escape(t) + [Quote]
  }

  /** A bare cell holds only bytes that may stand bare. */
  predicate ValidCell(c: Cell) {
    c.Plain? ==> PlainText(c.text)
  }

  /** The closing double quote of a quoted field and the separator after it. */
  lemma QuotedClose(t: seq<char>, last: bool)
    ensures Leads(Config(InQuotedField, t), [Quote] + Separator(last), Delivered(t, last), Config(After(last), []))
  {
    StepLeads(Config(InQuotedField, t), Quote);
    QuoteClose(t, last);
    LeadsTrans(Config(InQuotedField, t), [Quote], [], Config(InQuote, t), Separator(last), Delivered(t, last), Config(After(last), []));
    assert [] + Delivered(t, last) == Delivered(t, last);
  }

  /** A whole quoted field, from the state that opens it. */
  lemma QuotedRead(o: Tag, p: seq<char>, t: seq<char>, tail: seq<char>, e: seq<Event>, d: Config)
    requires Opening(o) && Leads(Config(InQuotedField, t), tail, e, d)
    ensures Leads(Config(o, p), [Quote] + Escape(t) + tail, e, d)
  {
    QuotedOpen(o, p);
    QuotedBody([], t);
    assert [] + t == t;
    LeadsTrans(Config(InQuotedField, []), Escape(t), [], Config(InQuotedField, t), tail, e, d);
    LeadsTrans(Config(o, p), [Quote], [], Config(InQuotedField, []), Escape(t) + tail, [] + e, d);
    assert [Quote] + (Escape(t) + tail) == [Quote] + Escape(t) + tail;
    assert [] + ([] + e) == e;
  }

  /** A cell and the separator after it deliver the cell's text. */
  lemma CellRead(o: Tag, p: seq<char>, c: Cell, last: bool)
    requires Opening(o) && ValidCell(c) && !(last && o == FirstFieldOfRecord && c == Plain([]))
    ensures Leads(Config(o, p), EncodeCell(c) + Separator(last), Delivered(c.text, last), Config(After(last), []))
  {
    var d := Config(After(last), []);
    match c
    case Plain(t) =>
      if t == [] {
        EmptyField(o, p, last);
        assert [] + Separator(last) == Separator(last);
      } else {
        BareBody(o, p, t);
        BareClose(o, t, last);
        LeadsTrans(Config(o, p), t, [], BareAfter(o, t), Separator(last), Delivered(t, last), d);
        assert [] + Delivered(t, last) == Delivered(t, last);
      }
    case Quoted(t) =>
      QuotedClose(t, last);
      QuotedRead(o, p, t, [Quote] + Separator(last), Delivered(t, last), d);
      assert [Quote] + Escape(t) + ([Quote] + Separator(last)) == EncodeCell(c) + Separator(last);
  }

  /** A cell at the very end of the document: `finish` delivers it and ends
      the record. */
  lemma CellEnd(o: Tag, p: seq<char>, c: Cell)
    requires Opening(o) && ValidCell(c) && !(o == FirstFieldOfRecord && c == Plain([]))
    ensures Complete(Config(o, p), EncodeCell(c)) == Trace([Field(c.text), EndRow], Config(StartOfRow, []))
  {
    var r := Trace([Field(c.text), EndRow], Config(StartOfRow, []));
    assert Prepend([], r) == r;
    match c
    case Plain(t) =>
      if t == [] {
        EmptyEnd(p);
      } else {
        BareBody(o, p, t);
        LeadsComplete(Config(o, p), t, [], BareAfter(o, t), []);
        assert t + [] == t;
        BareEnd(o, t);
      }
    case Quoted(t) =>
      StepLeads(Config(InQuotedField, t), Quote);
      QuotedRead(o, p, t, [Quote], [], Config(InQuote, t));
      LeadsComplete(Config(o, p), EncodeCell(c), [], Config(InQuote, t), []);
      assert EncodeCell(c) + [] == EncodeCell(c);
      FinishField(InQuote, t);
  }

  // ---------------------------------------------------------------- records

  /** The bytes of a record's cells, separated by commas. */
  function EncodeCells(cs: seq<Cell>): seq<char> {
    if cs == [] then []
    else if |cs| == 1 then EncodeCell(cs[0])
    else EncodeCell(cs[0]) + [Comma] + EncodeCells(cs[1..])
  }

  /** A record: its cells and the CRLF that ends it. */
  function EncodeRow(cs: seq<Cell>): seq<char> {
    EncodeCells(cs) + [CR, LF]
  }

  /** A document: its records one after the other. */
  function Encode(rows: seq<seq<Cell>>): seq<char> {
    if rows == [] then [] else Encode(rows[..|rows| - 1]) + EncodeRow(rows[|rows| - 1])
  }

  function FieldEvents(cs: seq<Cell>): seq<Event> {
    if cs == [] then [] else [Field(cs[0].text)] + FieldEvents(cs[1..])
  }

  /** The callbacks a record means: `start_row`, one `field` per cell, and
      `end_row`. */
  function RowEvents(cs: seq<Cell>): seq<Event> {
    [StartRow] + FieldEvents(cs) + [EndRow]
  }

  function Events(rows: seq<seq<Cell>>): seq<Event> {
    if rows == [] then [] else Events(rows[..|rows| - 1]) + RowEvents(rows[|rows| - 1])
  }

  /** A record the dialect can write: at least one field, and not a single
      empty bare field, which would be written as an empty line. */
  predicate ValidRow(cs: seq<Cell>) {
    cs != [] && cs != [Plain([])] && forall i :: 0 <= i < |cs| ==> ValidCell(cs[i])
  }

  predicate ValidRows(rows: seq<seq<Cell>>) {
    forall i :: 0 <= i < |rows| ==> ValidRow(rows[i])
  }

  /** The cells of a record and its CRLF deliver one field per cell and the
      end of the record. */
  lemma {:induction false} CellsRead(o: Tag, p: seq<char>, cs: seq<Cell>)
    requires Opening(o) && cs != [] && (forall i :: 0 <= i < |cs| ==> ValidCell(cs[i]))
    requires !(o == FirstFieldOfRecord && cs == [Plain([])])
    ensures Leads(Config(o, p), EncodeCells(cs) + [CR, LF], FieldEvents(cs) + [EndRow], Config(StartOfRow, []))
    decreases |cs|
  {
    assert FieldEvents(cs) == [Field(cs[0].text)] + FieldEvents(cs[1..]);
    if |cs| == 1 {
      assert cs == [cs[0]];
      CellRead(o, p, cs[0], true);
      assert FieldEvents(cs) + [EndRow] == [Field(cs[0].text), EndRow];
    } else {
      var rest := cs[1..];
      assert forall i :: 0 <= i < |rest| ==> ValidCell(rest[i]) by {
        forall i | 0 <= i < |rest| ensures ValidCell(rest[i]) { assert rest[i] == cs[i + 1]; }
      }
      CellRead(o, p, cs[0], false);
      CellsRead(StartOfField, [], rest);
      LeadsTrans(Config(o, p), EncodeCell(cs[0]) + [Comma], [Field(cs[0].text)], Config(StartOfField, []),
                 EncodeCells(rest) + [CR, LF], FieldEvents(rest) + [EndRow], Config(StartOfRow, []));
      assert (EncodeCell(cs[0]) + [Comma]) + (EncodeCells(rest) + [CR, LF]) == EncodeCells(cs) + [CR, LF];
      assert [Field(cs[0].text)] + (FieldEvents(rest) + [EndRow]) == FieldEvents(cs) + [EndRow];
    }
  }

  /** The cells of a last record without its CRLF: `finish` delivers the last
      field and ends the record anyway. */
  lemma {:induction false} CellsEnd(o: Tag, p: seq<char>, cs: seq<Cell>)
    requires Opening(o) && cs != [] && (forall i :: 0 <= i < |cs| ==> ValidCell(cs[i]))
    requires !(o == FirstFieldOfRecord && cs == [Plain([])])
    ensures Complete(Config(o, p), EncodeCells(cs)) == Trace(FieldEvents(cs) + [EndRow], Config(StartOfRow, []))
    decreases |cs|
  {
    assert FieldEvents(cs) == [Field(cs[0].text)] + FieldEvents(cs[1..]);
    if |cs| == 1 {
      assert cs == [cs[0]];
      CellEnd(o, p, cs[0]);
      assert FieldEvents(cs) + [EndRow] == [Field(cs[0].text), EndRow];
    } else {
      var rest := cs[1..];
      assert forall i :: 0 <= i < |rest| ==> ValidCell(rest[i]) by {
        forall i | 0 <= i < |rest| ensures ValidCell(rest[i]) { assert rest[i] == cs[i + 1]; }
      }
      CellRead(o, p, cs[0], false);
      CellsEnd(StartOfField, [], rest);
      LeadsComplete(Config(o, p), EncodeCell(cs[0]) + [Comma], [Field(cs[0].text)], Config(StartOfField, []), EncodeCells(rest));
      assert (EncodeCell(cs[0]) + [Comma]) + EncodeCells(rest) == EncodeCells(cs);
      assert [Field(cs[0].text)] + (FieldEvents(rest) + [EndRow]) == FieldEvents(cs) + [EndRow];
    }
  }

  /** The states a record is read from. */
  predicate RowStart(c: Config) {
    c.tag == Begin || c.tag == StartOfRow
  }

  lemma EncodeCellsNonEmpty(cs: seq<Cell>)
    requires ValidRow(cs)
    ensures EncodeCells(cs) != []
  {
    if |cs| == 1 {
      assert cs == [cs[0]];
      match cs[0]
      case Plain(t) => assert t != [];
      case Quoted(t) => assert EncodeCell(cs[0])[0] == Quote;
    } else {
      assert |EncodeCell(cs[0]) + [Comma]| > 0;
    }
  }

  /** The first byte of a record announces it: `start_row`, then the first
      field is opened on that same byte. */
  lemma RowOpens(c: Config, s: seq<char>)
    requires RowStart(c) && s != []
    ensures Complete(c, s) == Prepend([StartRow], Complete(Config(FirstFieldOfRecord, c.pending), s))
  {
    var r := Run(Config(FirstFieldOfRecord, c.pending), s);
    assert Run(c, s) == Prepend([StartRow], r);
    PrependPrepend([StartRow], r.events, Finish(r.final));
  }

  /** A record and its CRLF deliver the record's events. */
  lemma RowRead(c: Config, cs: seq<Cell>)
    requires RowStart(c) && ValidRow(cs)
    ensures Leads(c, EncodeRow(cs), RowEvents(cs), Config(StartOfRow, []))
  {
    CellsRead(FirstFieldOfRecord, c.pending, cs);
    assert EncodeRow(cs)[0] == EncodeCells(cs + [])[0] by { EncodeCellsNonEmpty(cs); assert cs + [] == cs; }
    PeekLeads(c, EncodeRow(cs), FieldEvents(cs) + [EndRow], Config(StartOfRow, []));
    assert [StartRow] + (FieldEvents(cs) + [EndRow]) == RowEvents(cs);
  }

  /** A last record without its CRLF, and `finish`. */
  lemma RowEnd(c: Config, cs: seq<Cell>)
    requires RowStart(c) && ValidRow(cs)
    ensures Complete(c, EncodeCells(cs)) == Trace(RowEvents(cs), Config(StartOfRow, []))
  {
    EncodeCellsNonEmpty(cs);
    RowOpens(c, EncodeCells(cs));
    CellsEnd(FirstFieldOfRecord, c.pending, cs);
    assert [StartRow] + (FieldEvents(cs) + [EndRow]) == RowEvents(cs);
  }

  /** Records one after the other deliver their events in order. */
  lemma {:induction false} RowsRead(c: Config, rows: seq<seq<Cell>>)
    requires RowStart(c) && rows != [] && ValidRows(rows)
    ensures Leads(c, Encode(rows), Events(rows), Config(StartOfRow, []))
    decreases |rows|
  {
    var init, last := rows[..|rows| - 1], rows[|rows| - 1];
    assert ValidRow(last);
    assert Encode(rows) == Encode(init) + EncodeRow(last);
    assert Events(rows) == Events(init) + RowEvents(last);
    if init == [] {
      RowRead(c, last);
      assert Encode(init) == [] && Events(init) == [];
      assert [] + EncodeRow(last) == EncodeRow(last) && [] + RowEvents(last) == RowEvents(last);
    } else {
      assert ValidRows(init) by {
        forall i | 0 <= i < |init| ensures ValidRow(init[i]) { assert init[i] == rows[i]; }
      }
      RowsRead(c, init);
      RowRead(Config(StartOfRow, []), last);
      LeadsTrans(c, Encode(init), Events(init), Config(StartOfRow, []), EncodeRow(last), RowEvents(last), Config(StartOfRow, []));
    }
  }

  /** The round trip: parsing the encoding of well-formed records, in one call
      on a fresh session or at the start of a row, delivers exactly their
      events and leaves the session at the start of a row; `finish` then
      delivers nothing more. */
  lemma RoundTrip(rows: seq<seq<Cell>>)
    requires ValidRows(rows)
    ensures Run(Config(StartOfRow, []), Encode(rows)) == Trace(Events(rows), Config(StartOfRow, []))
    ensures rows != [] ==> Run(Initial, Encode(rows)) == Trace(Events(rows), Config(StartOfRow, []))
    ensures rows != [] ==> Document(Encode(rows)) == Trace(Events(rows), Config(StartOfRow, []))
  {
    var sor := Config(StartOfRow, []);
    assert Encode(rows) + [] == Encode(rows) && Events(rows) + [] == Events(rows);
    assert Complete(sor, []) == Trace([], sor);
    if rows != [] {
      RowsRead(sor, rows);
      RowsRead(Initial, rows);
      LeadsComplete(sor, Encode(rows), Events(rows), sor, []);
      LeadsComplete(Initial, Encode(rows), Events(rows), sor, []);
    }
  }

  /** Without the CRLF that ends the last record, `finish` still delivers
      every event of the document. */
  lemma TrimmedRoundTrip(rows: seq<seq<Cell>>)
    requires rows != [] && ValidRows(rows)
    ensures |Encode(rows)| >= 2
    ensures Document(Encode(rows)[..|Encode(rows)| - 2]) == Trace(Events(rows), Config(StartOfRow, []))
  {
    var init, last := rows[..|rows| - 1], rows[|rows| - 1];
    assert ValidRow(last);
    var s := Encode(init) + EncodeCells(last);
    assert Encode(rows) == s + [CR, LF];
    assert Encode(rows)[..|Encode(rows)| - 2] == s;
    if init == [] {
      assert s == EncodeCells(last);
      RowEnd(Initial, last);
      assert Events(rows) == RowEvents(last);
    } else {
      assert ValidRows(init) by {
        forall i | 0 <= i < |init| ensures ValidRow(init[i]) { assert init[i] == rows[i]; }
      }
      RowsRead(Initial, init);
      LeadsComplete(Initial, Encode(init), Events(init), Config(StartOfRow, []), EncodeCells(last));
      RowEnd(Config(StartOfRow, []), last);
    }
  }
}
