/** Where the machine stands partway through a document. A prefix of a
    well-formed document is some complete records, then some complete fields
    of the next record each followed by its comma, then the part of one more
    field read so far. The session after such a prefix depends on that last
    partial field alone, and a byte the dialect does not allow after it
    fails the document there, whatever follows. */
module CsvPrefixes {
  import opened Csv
  import opened CsvRecords

  /** The part of a field read so far: nothing yet, some bare bytes, an open
      quoted field with its unescaped body so far, a quoted field whose
      closing double quote has been read, or one whose closing double quote
      and a CR have been read. */
  datatype Partial = Untouched | Bare(text: seq<char>) | OpenQuote(text: seq<char>)
                   | Closed(text: seq<char>) | ClosedCr(text: seq<char>)

  /** The bytes of a partial field. */
  function PartialBytes(p: Partial): seq<char> {
    match p
    case Untouched => []
    case Bare(t) => t
    case OpenQuote(t) => [Quote] + Escape(t)
    case Closed(t) => [Quote] + Escape(t) + [Quote]
    case ClosedCr(t) => [Quote] + Escape(t) + [Quote, CR]
  }

  /** Bare bytes must be bytes that may stand bare, and at least one. */
  predicate ValidPartial(p: Partial) {
    p.Bare? ==> p.text != [] && PlainText(p.text)
  }

  /** The session inside a field opened in `o` after its partial bytes. */
  function Inside(o: Tag, p: Partial): Config
    requires p != Untouched && ValidPartial(p)
  {
    match p
    case Bare(t) => BareAfter(o, t)
    case OpenQuote(t) => Config(InQuotedField, t)
    case Closed(t) => Config(InQuote, t)
    case ClosedCr(t) => Config(RequireLineFeed, t)
  }

  predicate ValidCells(cs: seq<Cell>) {
    forall i :: 0 <= i < |cs| ==> ValidCell(cs[i])
  }

  /** Complete fields of an unfinished record, each with its comma. */
  function Fields(cs: seq<Cell>): seq<char> {
    if cs == [] then [] else EncodeCells(cs) + [Comma]
  }

  /** The bytes of a prefix. */
  function Prefix(rows: seq<seq<Cell>>, cs: seq<Cell>, p: Partial): seq<char> {
    Encode(rows) + Fields(cs) + PartialBytes(p)
  }

  /** The events a prefix has delivered: those of its complete records and,
      once the next record has begun, its `start_row` and its complete
      fields. */
  function PrefixEvents(rows: seq<seq<Cell>>, cs: seq<Cell>, p: Partial): seq<Event> {
    Events(rows) + (if cs == [] && p == Untouched then [] else [StartRow] + FieldEvents(cs))
  }

  /** The session after a prefix: fresh, at the start of a row or at the
      start of a field when nothing of the next field has been read, and
      otherwise the session inside the partial field. */
  function Where(rows: seq<seq<Cell>>, cs: seq<Cell>, p: Partial): Config
    requires ValidPartial(p)
  {
    if p == Untouched then
      if cs != [] then Config(StartOfField, [])
      else if rows != [] then Config(StartOfRow, [])
      else Initial
    else Inside(if cs == [] then FirstFieldOfRecord else StartOfField, p)
  }

  /** The partial field, read from the state that opens it. */
  lemma PartialRead(o: Tag, q: seq<char>, p: Partial)
    requires Opening(o) && p != Untouched && ValidPartial(p)
    ensures Leads(Config(o, q), PartialBytes(p), [], Inside(o, p))
  {
    match p
    case Bare(t) =>
      BareBody(o, q, t);
    case OpenQuote(t) =>
      LeadsNil(Config(InQuotedField, t));
      QuotedRead(o, q, t, [], [], Config(InQuotedField, t));
      assert [Quote] + Escape(t) + [] == PartialBytes(p);
    case Closed(t) =>
      StepLeads(Config(InQuotedField, t), Quote);
      QuotedRead(o, q, t, [Quote], [], Config(InQuote, t));
    case ClosedCr(t) =>
      StepLeads(Config(InQuotedField, t), Quote);
      StepLeads(Config(InQuote, t), CR);
      LeadsTrans(Config(InQuotedField, t), [Quote], [], Config(InQuote, t), [CR], [], Config(RequireLineFeed, t));
      assert [Quote] + [CR] == [Quote, CR];
      QuotedRead(o, q, t, [Quote, CR], [], Config(RequireLineFeed, t));
      assert [Quote] + Escape(t) + [Quote, CR] == PartialBytes(p);
  }

  /** Complete fields, each with its comma, deliver one field each and leave
      the session at the start of the next field. */
  lemma {:induction false} FieldsRead(o: Tag, q: seq<char>, cs: seq<Cell>)
    requires Opening(o) && cs != [] && ValidCells(cs)
    ensures Leads(Config(o, q), EncodeCells(cs) + [Comma], FieldEvents(cs), Config(StartOfField, []))
    decreases |cs|
  {
    assert FieldEvents(cs) == [Field(cs[0].text)] + FieldEvents(cs[1..]);
    CellRead(o, q, cs[0], false);
    if |cs| == 1 {
      assert cs == [cs[0]];
      assert FieldEvents(cs) == [Field(cs[0].text)];
    } else {
      var rest := cs[1..];
      assert ValidCells(rest) by {
        forall i | 0 <= i < |rest| ensures ValidCell(rest[i]) { assert rest[i] == cs[i + 1]; }
      }
      FieldsRead(StartOfField, [], rest);
      LeadsTrans(Config(o, q), EncodeCell(cs[0]) + [Comma], [Field(cs[0].text)], Config(StartOfField, []),
                 EncodeCells(rest) + [Comma], FieldEvents(rest), Config(StartOfField, []));
      assert (EncodeCell(cs[0]) + [Comma]) + (EncodeCells(rest) + [Comma]) == EncodeCells(cs) + [Comma];
    }
  }

  /** The bytes of a record begun so far, read in its first field. */
  lemma RecordRead(cs: seq<Cell>, p: Partial)
    requires ValidCells(cs) && ValidPartial(p) && (cs != [] || p != Untouched)
    ensures Leads(Config(FirstFieldOfRecord, []), Fields(cs) + PartialBytes(p), FieldEvents(cs), Where([], cs, p))
  {
    var w := Where([], cs, p);
    if cs == [] {
      PartialRead(FirstFieldOfRecord, [], p);
      assert Fields(cs) + PartialBytes(p) == PartialBytes(p);
    } else {
      FieldsRead(FirstFieldOfRecord, [], cs);
      if p == Untouched {
        LeadsNil(w);
      } else {
        PartialRead(StartOfField, [], p);
      }
      LeadsTrans(Config(FirstFieldOfRecord, []), Fields(cs), FieldEvents(cs), Config(StartOfField, []),
                 PartialBytes(p), [], w);
      assert FieldEvents(cs) + [] == FieldEvents(cs);
    }
  }

  /** A record begun: its first byte announces it with `start_row`. */
  lemma RecordOpens(c: Config, cs: seq<Cell>, p: Partial)
    requires RowStart(c) && c.pending == [] && ValidCells(cs) && ValidPartial(p) && (cs != [] || p != Untouched)
    ensures Leads(c, Fields(cs) + PartialBytes(p), [StartRow] + FieldEvents(cs), Where([], cs, p))
  {
    var a := Fields(cs) + PartialBytes(p);
    var e := FieldEvents(cs);
    assert a != [] by {
      if cs != [] {
        assert |Fields(cs)| > 0;
      } else {
        match p
        case Bare(t) => assert t != [];
        case OpenQuote(_) => assert PartialBytes(p)[0] == Quote;
        case Closed(_) => assert PartialBytes(p)[0] == Quote;
        case ClosedCr(_) => assert PartialBytes(p)[0] == Quote;
      }
    }
    RecordRead(cs, p);
    assert Apply(c, Next(c.tag, Byte(a[0]))) == Config(FirstFieldOfRecord, []);
    PeekLeads(c, a, e, Where([], cs, p));
  }

  /** The session after the complete records of a prefix. */
  function RowsEnd(rows: seq<seq<Cell>>): Config {
    if rows == [] then Initial else Config(StartOfRow, [])
  }

  lemma RowsLead(rows: seq<seq<Cell>>)
    requires ValidRows(rows)
    ensures Leads(Initial, Encode(rows), Events(rows), RowsEnd(rows))
  {
    if rows == [] {
      LeadsNil(Initial);
      assert Encode(rows) == [] && Events(rows) == [];
    } else {
      RowsRead(Initial, rows);
    }
  }

  /** The record begun after the complete records. */
  lemma TailLeads(rows: seq<seq<Cell>>, cs: seq<Cell>, p: Partial)
    requires ValidCells(cs) && ValidPartial(p)
    ensures Leads(RowsEnd(rows), Fields(cs) + PartialBytes(p),
                  if cs == [] && p == Untouched then [] else [StartRow] + FieldEvents(cs), Where(rows, cs, p))
  {
    if cs == [] && p == Untouched {
      LeadsNil(RowsEnd(rows));
      assert Fields(cs) + PartialBytes(p) == [];
    } else {
      RecordOpens(RowsEnd(rows), cs, p);
    }
  }

  /** A prefix is its complete records followed by the record begun. */
  lemma PrefixSplit(rows: seq<seq<Cell>>, cs: seq<Cell>, p: Partial)
    ensures Prefix(rows, cs, p) == Encode(rows) + (Fields(cs) + PartialBytes(p))
    ensures PrefixEvents(rows, cs, p) == Events(rows) + (if cs == [] && p == Untouched then [] else [StartRow] + FieldEvents(cs))
  {
    Regroup(Encode(rows), Fields(cs), PartialBytes(p));
  }

  lemma Regroup(x: seq<char>, y: seq<char>, z: seq<char>)
    ensures x + y + z == x + (y + z)
  {
  }

  /** What a prefix delivers and where it leaves the session, for whatever
      bytes follow it. */
  lemma PrefixLeads(rows: seq<seq<Cell>>, cs: seq<Cell>, p: Partial)
    requires ValidRows(rows) && ValidCells(cs) && ValidPartial(p)
    ensures Leads(Initial, Prefix(rows, cs, p), PrefixEvents(rows, cs, p), Where(rows, cs, p))
  {
    var a, b := Encode(rows), Fields(cs) + PartialBytes(p);
    var e, f := Events(rows), if cs == [] && p == Untouched then [] else [StartRow] + FieldEvents(cs);
    PrefixSplit(rows, cs, p);
    RowsLead(rows);
    TailLeads(rows, cs, p);
    LeadsTrans(Initial, a, e, RowsEnd(rows), b, f, Where(rows, cs, p));
  }

  /** A prefix parsed in one call: it delivers its events and leaves the
      session where the prefix says. */
  lemma PrefixSession(rows: seq<seq<Cell>>, cs: seq<Cell>, p: Partial)
    requires ValidRows(rows) && ValidCells(cs) && ValidPartial(p)
    ensures Run(Initial, Prefix(rows, cs, p)) == Trace(PrefixEvents(rows, cs, p), Where(rows, cs, p))
  {
    PrefixLeads(rows, cs, p);
    LeadsComplete(Initial, Prefix(rows, cs, p), PrefixEvents(rows, cs, p), Where(rows, cs, p), []);
    assert Prefix(rows, cs, p) + [] == Prefix(rows, cs, p);
    assert PrefixEvents(rows, cs, p) + [] == PrefixEvents(rows, cs, p);
  }

  /** A byte that the session after a prefix rejects fails the document
      there: the error is the last event, the session is in `Error`, and
      nothing that follows is read. */
  lemma PrefixFails(rows: seq<seq<Cell>>, cs: seq<Cell>, p: Partial, x: char, rest: seq<char>)
    requires ValidRows(rows) && ValidCells(cs) && ValidPartial(p)
    requires var w := Where(rows, cs, p); CanStep(w.tag, Byte(x)) && !Eventful(w.tag) && Next(w.tag, Byte(x)).next == Error
    ensures var w := Where(rows, cs, p);
      Run(Initial, Prefix(rows, cs, p) + [x] + rest)
        == Trace(PrefixEvents(rows, cs, p) + Emitted(w, Next(w.tag, Byte(x))), Config(Error, []))
  {
    var w := Where(rows, cs, p);
    var st := Next(w.tag, Byte(x));
    StepContract(w.tag, Byte(x));
    PrefixLeads(rows, cs, p);
    LeadsComplete(Initial, Prefix(rows, cs, p), PrefixEvents(rows, cs, p), w, [x] + rest);
    assert Prefix(rows, cs, p) + ([x] + rest) == Prefix(rows, cs, p) + [x] + rest;
    RunByte(w, x, rest);
    assert Apply(w, st) == Config(Error, []);
  }
}
