# SAXY CSV core in Dafny

SAXY is a C++ library of push ("SAX-style") parsers. A parser reads its
input in chunks of any size. It reports what it finds through a callback
object. Each callback returns a tri-state command: `keep_going`, `stop` or
`abort`. The parser can stop after any event and resume later, even after
an exception thrown by the callback or by the field buffer's allocator.

This project models the CSV parser as its test suite specifies it
(`tests/test/csv_test.cpp`), together with what it is built from:

- the primitives of `include/saxy/common.hpp`:
  - the `state<>` constants and `command`, and their comparisons;
  - `to_return_value` and the `SAXY_RUN_CALLBACK` early return;
  - the `append_to_vector` and `in_place` field sinks;
  - the `scope_clear` and `scope_assign` guards;
  - `cstr_end_iterator` and `count_leading_zeros`;
- the `second_throw_allocator` of the exception-safety tests;
- the recording callback `csv_test_parser`.

## Structure

The modules, from the bottom up:

- `Signals` (`signals.dfy`): `state<>`, `command`, their eight comparison
  operators, `to_return_value` and `SAXY_RUN_CALLBACK`.
- `Bits` (`bits.dfy`), `CString` (`cstr.dfy`): `count_leading_zeros` and the
  null-terminated end iterator.
- `Allocation` (`allocator.dfy`): `second_throw_allocator`, a class whose
  call counter is a `std::size_t`, with its wrap-around written out.
- `Sinks` (`sinks.dfy`): a `CharVector` class standing for the
  `std::vector<char>` behind `append_to_vector`. Its growth may fail when it
  is given an allocator. `AppendToVector` keeps a NUL sentinel after the
  pending field. `InPlace` writes the field into the caller's own array,
  behind the read position.
- `Guards` (`guards.dfy`): `scope_clear` and `scope_assign`. Their
  destructors become `Exit` methods that the parser calls on every path
  out of the scope.
- `Recorder` (`recorder.dfy`): `csv_test_parser` as a class. It updates its
  fields in place, just as the test's struct does. Functions over sequences
  of events (`Xml`, `ErrorCount`, `LastCode`, `After`) specify what a run of
  callbacks leaves in it.
- `Csv` (`csv.dfy`): the CSV dialect and the parser's state machine:
  - 14 states, the step function `Next`, and the runs `Run` (one `parse`),
    `Finish` (`finish`) and `Document` (both).
  - The dialect is section 2 of RFC 4180 with three departures, all fixed
    by the tests. CRLF is the only record separator. A lone CR or LF inside
    an unquoted field is data. A record with no field is an error.
- `CsvRecords` (`records.dfy`): well-formed records, their encoding, and
  the round trip "parse the encoding, get back the records' events".
- `CsvPrefixes` (`prefixes.dfy`): the session after any prefix of an
  encoding, and what a byte the dialect rejects at that point does.
- `CsvParser` (`parser.dfy`): `parser<Allocator>` as a class. It owns the
  vector sink, a state tag and, on request, a `SecondThrowAllocator`.
  - `Parse` is `parse(cb, first, last, &save)`; `Finish` is `finish(cb)`.
  - Both are loops proved against the machine's runs.
  - The predicates `Scanned` and `Ended` state what one call promises: no
    event is lost or repeated when parsing resumes at the offset the call
    came back at. The call returns early only for a reply other than
    `keep_going` (with `to_return_value` of it) or an exception. When
    nothing can interrupt it, it consumes the chunk or stops in `Error`.
- `CsvBehaviour` (`behaviour.dfy`): what those contracts imply for the ways
  the tests drive a parser: in one call, in two chunks, and resumed after
  a `stop`, an `abort`, a throwing callback or a throwing allocator.
- `InPlaceParsing` (`inplace.dfy`): `in_place_parser`, written over the
  caller's `array<char>`, and the one-shot `parse(cb, data, size)`.
- `CsvTables` (`tables.dfy`): the tables of the test suite, row by row:
  - every document of "Check conversion" with the XML the recorder writes
    for it, under every way `check_conversion` parses it;
  - the session each string of "Check equality" leaves;
  - each document of "CSV errors are detected" with its error.

`csv.hpp` is not part of this model. The state machine is reconstructed
from the tests' tables and the state names they list. Two behaviours
follow from the library code rather than from its description:

- `to_return_value(stop)` is `true`, so `parse` returns true after a
  `stop` reply and false after an `abort` reply.
- `count_leading_zeros` is documented as counting leading zero bits. Its
  code, and its test, return the index of the lowest set bit, or 16 for
  zero. The model follows the code.

## Model

| member | source | states |
|---|---|---|
| Signals.ToReturnValue | include/saxy/common.hpp:216-220 | defined only for a command other than `keep_going` (the `assert`); true exactly for `stop`, so false for `abort` |
| Signals.RunCallback | include/saxy/common.hpp:55-61 | the parser carries on exactly when the reply is `keep_going`; otherwise it returns `to_return_value` of the reply |
| Signals.ConstantsDistinct | include/saxy/common.hpp:65-80 | `keep_going`, `stop` and `abort` carry the tags 0, 1 and 2 and are pairwise different, as constants and as commands |
| Signals.ComparisonsAgree | include/saxy/common.hpp:82-128 | every `!=` negates its `==`; comparing a command with a constant, in either order, is comparing it with the converted constant; command equality is equality of the commands |
| Signals.ReturnValues | include/saxy/common.hpp:216-220 | `stop` makes `parse` return true, `abort` false, and `keep_going` never returns early |
| Bits.CountLeadingZeros | include/saxy/common.hpp:326-342 | 16 for zero; otherwise a value below 32 that is the index of the lowest set bit |
| Bits.LowestSetBitUnique | include/saxy/common.hpp:336-337 | a number has only one lowest set bit, so the result is determined |
| Bits.CountIsLowestSetBit | include/saxy/common.hpp:336-337 | for a nonzero argument, whatever index is its lowest set bit is the result |
| Bits.SingleBit | tests/test/common_test.cpp:13-15 | `1u << i` gives `i` for every shift that fits in 32 bits |
| Bits.Examples | tests/test/common_test.cpp:11-18 | 0 gives 16, 32768 gives 15 and 49152 gives 14 |
| CString.Comparisons | include/saxy/common.hpp:160-182 | both operand orders of `==` agree, and so do those of `!=`; `!=` negates `==`; a pointer equals the end iterator exactly when it points at a NUL |
| CString.Length | include/saxy/common.hpp:160-182 | the distance from a pointer to its string's end: the byte there equals the end iterator and no byte before it does |
| CString.LengthUnique | include/saxy/common.hpp:160-182 | any distance to a NUL with no NUL before it is that length |
| Allocation.SecondThrowAllocator.constructor | include/saxy/second_throw_allocator.hpp:61-63 | a fresh allocator has made no call |
| Allocation.SecondThrowAllocator.Rebind | include/saxy/second_throw_allocator.hpp:65-68 | the converting copy keeps the other allocator's count |
| Allocation.SecondThrowAllocator.Allocate | include/saxy/second_throw_allocator.hpp:70-76 | the `size_t` count goes up by one, wrapping round, and the call fails exactly when the new count is 2 |
| Allocation.CountAfter | include/saxy/second_throw_allocator.hpp:71 | the count after any number of calls stays in the range of `size_t` |
| Allocation.CountAfterSteps | include/saxy/second_throw_allocator.hpp:71 | one more call moves the count as `Allocate` does |
| Allocation.FreshAllocator | include/saxy/second_throw_allocator.hpp:70-76 | on a fresh allocator the k-th call fails exactly when k is 2, until the counter wraps round |
| Allocation.AtMostOneFailure | include/saxy/second_throw_allocator.hpp:70-76 | after a failing call, every call succeeds for a whole counter period |
| Sinks.CharVector.constructor | include/saxy/common.hpp:222-229 | an empty vector with no capacity, over the given allocator or the standard one |
| Sinks.CharVector.Request | include/saxy/second_throw_allocator.hpp:70-76 | an allocation through the vector's allocator: the standard one never fails, and a faulty one counts and fails as `allocate` does |
| Sinks.CharVector.Reserve | tests/test/csv_test.cpp:135 | `parser(i)` reserves `i` bytes: contents unchanged, capacity at least `i` on success, one allocation only if it has to grow |
| Sinks.CharVector.Grow | include/saxy/common.hpp:231-251 | growth before an insertion: a vector with room keeps its capacity and allocates nothing; one too small grows to twice its capacity, or to what is needed when that is more; on failure capacity and contents are unchanged |
| Sinks.CharVector.PushBack | include/saxy/common.hpp:232 | `push_back`: the byte is appended, or nothing changes and an allocation failed |
| Sinks.CharVector.InsertBeforeLast | include/saxy/common.hpp:236 | `insert(end() - 1, …)`: the bytes go before the last element, or nothing changes and an allocation failed |
| Sinks.CharVector.Clear | include/saxy/common.hpp:254 | `clear`: no element is left and the capacity is kept |
| Sinks.AppendToVector.constructor | include/saxy/common.hpp:227-229 | the sink writes into the given vector |
| Sinks.AppendToVector.View | include/saxy/common.hpp:257-259 | `view_string`: every element but the sentinel |
| Sinks.AppendToVector.Start | include/saxy/common.hpp:231-233 | a sentinel is pushed after the old contents, which become the view, or the push failed and nothing changed |
| Sinks.AppendToVector.Append | include/saxy/common.hpp:235-237 | the view grows by the byte, the sentinel stays last, or nothing changes |
| Sinks.AppendToVector.AppendRange | include/saxy/common.hpp:239-242 | the view grows by the bytes, the sentinel stays last, or nothing changes |
| Sinks.AppendToVector.AppendSame | include/saxy/common.hpp:244-246 | the same as `append(ch)`: a vector sink copies the byte |
| Sinks.AppendToVector.AppendSameRange | include/saxy/common.hpp:248-251 | the same as `append(first, last)` |
| Sinks.AppendToVector.Clear | include/saxy/common.hpp:253-255 | the vector is emptied, sentinel included, and its capacity is kept |
| Sinks.InPlace.constructor | include/saxy/common.hpp:272-275 | start and cursor both at the given position of the buffer |
| Sinks.InPlace.View | include/saxy/common.hpp:321-323 | the bytes from the start to the cursor |
| Sinks.InPlace.Start | include/saxy/common.hpp:293-296 | start and cursor move to the position, and the view is empty |
| Sinks.InPlace.Append | include/saxy/common.hpp:298-300 | the byte is written under the cursor, no other byte changes, and the view grows by it |
| Sinks.InPlace.AppendRange | include/saxy/common.hpp:302-307 | the source bytes are copied in order under the cursor, even from the buffer's own unread part; bytes before and after are kept; the view grows by them |
| Sinks.InPlace.AppendSame | include/saxy/common.hpp:309-311 | the cursor moves past a byte already in place, and the view grows by that byte |
| Sinks.InPlace.AppendSameRange | include/saxy/common.hpp:313-316 | the cursor moves past the bytes already in place, and the view grows by them |
| Sinks.InPlace.Clear | include/saxy/common.hpp:318-319 | nothing changes: the view stays as it is |
| Guards.ScopeAssign.constructor | include/saxy/common.hpp:204-207 | the guard remembers the source and the optional target |
| Guards.ScopeAssign.Exit | include/saxy/common.hpp:209-213 | when there is a target it receives the source's value; nothing else changes |
| Guards.ScopeClear.constructor | include/saxy/common.hpp:189-191 | the guard remembers the sink |
| Guards.ScopeClear.Exit | include/saxy/common.hpp:193-195 | the container is emptied and keeps its capacity |
| Recorder.CsvTestParser.constructor | tests/test/csv_test.cpp:30-35 | no XML, no error, no call, and `throw_at` is -1, so no call is scripted |
| Recorder.CsvTestParser.Scripted | tests/test/csv_test.cpp:37-43 | the same, with the response and the call it is scripted for |
| Recorder.CsvTestParser.ReturnHelper | tests/test/csv_test.cpp:45-57 | the reply the call number and the script give; the call count goes up by one and nothing else changes |
| Recorder.CsvTestParser.Deliver | tests/test/csv_test.cpp:59-81 | each callback: the XML gains the event's text, `error` counts one more error and records its code, and the reply is the script's (`abort` for `error`) |
| Recorder.XmlAppend | tests/test/csv_test.cpp:59-74 | the XML of two runs of events is the concatenation of theirs |
| Recorder.ErrorCountAppend | tests/test/csv_test.cpp:76-81 | error counts add up across runs |
| Recorder.LastCodeAppend | tests/test/csv_test.cpp:76-81 | the recorded code after two runs is the second run's last, else the first's |
| Recorder.XmlOne | tests/test/csv_test.cpp:59-81 | what one event writes, counts and records |
| Recorder.AtMostOneInterruption | tests/test/csv_test.cpp:45-57 | a reply other than `keep_going` comes exactly for `error` or at the scripted call, and at most one of two calls is scripted |
| Recorder.ErrorStops | tests/test/csv_test.cpp:76-81 | `error` always answers `abort`, unless it is the scripted call of an exception-throwing recorder, when it throws |
| Recorder.QuietReply | tests/test/csv_test.cpp:45-57 | once the scripted call is past, the reply is `keep_going`, and `abort` for `error` |
| Recorder.After | tests/test/csv_test.cpp:59-81 | the recorder's script is kept, and its call count goes up by the number of events |
| Recorder.AfterAppend | tests/test/csv_test.cpp:59-81 | a recorder fed two runs of events ends where one fed their concatenation does |
| Csv.StepContract | tests/test/csv_test.cpp:386-431 | in every state: a step that may allocate fires no event; a field is delivered from a started buffer and clears it; the machine enters `Error` exactly when it reports an error, clearing the buffer |
| Csv.NextRanks | tests/test/csv_test.cpp:287-290 | the three internal end-of states fire their event without reading, and every step reads a byte or moves closer to stalling, so a parse ends |
| Csv.RunStops | tests/test/csv_test.cpp:386-431 | a parse comes back only in a state that needs input or in `Error`, and a session in `Error` ignores whatever follows |
| Csv.FinishEnds | tests/test/csv_test.cpp:414-422 | `finish` ends at the start of a row or in `Error` |
| Csv.RunAppend | tests/test/csv_test.cpp:108-118 | parsing two chunks one after the other is parsing their concatenation |
| Csv.LeadsComplete | tests/test/csv_test.cpp:108-118 | bytes that lead one session to another, delivering some events, do so whatever follows them, in a parse and in a parse with `finish` |
| CsvRecords.RoundTrip | tests/test/csv_test.cpp:205-234 | the encoding of any well-formed records, parsed in one call from a fresh session or the start of a row, delivers exactly their events and ends at the start of a row; `finish` adds nothing |
| CsvRecords.TrimmedRoundTrip | tests/test/csv_test.cpp:97-105 | without its last CRLF the encoding, parsed and finished, still delivers every event |
| CsvRecords.QuotedBody | tests/test/csv_test.cpp:224-233 | inside quotes any byte is data, and a doubled quote is one quote |
| CsvRecords.BareBody | tests/test/csv_test.cpp:214-222 | an unquoted field may hold lone CRs and LFs as data |
| CsvRecords.CellRead | tests/test/csv_test.cpp:205-234 | a field of any kind, then its comma or CRLF, delivers exactly that field |
| CsvPrefixes.PrefixLeads | tests/test/csv_test.cpp:242-285 | any prefix of well-formed records delivers the events of its complete records and fields and leaves the session that its last partial field names, whatever follows |
| CsvPrefixes.PrefixSession | tests/test/csv_test.cpp:242-285 | the same, for a prefix parsed on its own |
| CsvPrefixes.PrefixFails | tests/test/csv_test.cpp:292-295 | a byte rejected after a prefix puts the session in `Error`, delivers the error last, and nothing that follows is read |
| CsvParser.Parser.constructor | tests/test/csv_test.cpp:135 | a fresh session whose vector has exactly the capacity asked for; reserving it made one allocation exactly when it was not zero |
| CsvParser.Parser.Equals | tests/test/csv_test.cpp:315-325 | two parsers are equal when their sessions are; equal parsers hash alike, and parsers whose pending bytes are bytes hash alike only when they are equal |
| CsvParser.BytesHashInjective | tests/test/csv_test.cpp:321-325 | two byte strings that fold to the same number are the same string |
| CsvParser.HashSeparates | tests/test/csv_test.cpp:314-325 | two sessions whose pending bytes are bytes hash alike exactly when they are equal |
| CsvParser.Parser.Touch | include/saxy/common.hpp:231-242 | the buffer is opened or gains the byte, keeping its sentinel; a failed allocation leaves its contents unchanged and the allocator at its failing count |
| CsvParser.Parser.Notify | include/saxy/common.hpp:184-196 | one callback; after a field the buffer is emptied on every path, even when the callback throws |
| CsvParser.Parser.Perform | include/saxy/common.hpp:55-61 | one machine step: the session moves to the next state and the event, if any, is delivered; on an allocation failure nothing but the allocator changes |
| CsvParser.Parser.Scan | tests/test/csv_test.cpp:108-202 | the parse loop: the parse contract `Scanned` holds of its result |
| CsvParser.Parser.Parse | tests/test/csv_test.cpp:139-147 | `parse(cb, first, last, &save)`: `Scanned`, and `save` receives the offset the call came back at |
| CsvParser.Parser.Finish | tests/test/csv_test.cpp:414-422 | `finish`: the finish contract `Ended` |
| CsvBehaviour.RunErrors | tests/test/csv_test.cpp:386-431 | a parse delivers at most one error, as its last event, exactly when it ends in `Error`, and then its buffer is empty |
| CsvBehaviour.FinishErrors | tests/test/csv_test.cpp:414-422 | the same for `finish` |
| CsvBehaviour.QuietParse | tests/test/csv_test.cpp:386-412 | a call that nothing can interrupt delivers the run's events and returns whether the session is outside `Error`, having consumed the chunk if so |
| CsvBehaviour.QuietFinish | tests/test/csv_test.cpp:414-422 | the same for `finish`, which ends at the start of a row or in `Error` |
| CsvBehaviour.Unfailed | tests/test/csv_test.cpp:133-202 | on a document that does not fail, a call comes back early only for the scripted reply or exception, and resuming from where it came back reaches the same end |
| CsvBehaviour.Whole | tests/test/csv_test.cpp:108-118 | a call that finished on a document that does not fail returns true, consumes it and delivers its events |
| CsvBehaviour.ChunksCompose | tests/test/csv_test.cpp:108-130 | two calls over a document split anywhere return true, consume their chunks and deliver the whole document's events |
| CsvBehaviour.FirstCall | tests/test/csv_test.cpp:154-202 | the first call under a `stop` script returns true; under `abort` it returns true exactly when it finished; under `exception` it throws exactly when it did not finish |
| CsvBehaviour.Resumption | tests/test/csv_test.cpp:133-202 | a second call from where an interrupted first call came back returns true, consumes the rest and completes the document's events |
| InPlaceParsing.InPlaceStep | include/saxy/common.hpp:298-316 | at every step the in-place cursor stays behind the read position, so no unread byte is overwritten |
| InPlaceParsing.InPlaceParser.constructor | tests/test/csv_test.cpp:123 | a fresh session reading the caller's buffer from its first byte |
| InPlaceParsing.InPlaceParser.Touch | include/saxy/common.hpp:293-316 | the in-place buffer write of a step: the unread bytes are the input's, and the view is the session's pending field |
| InPlaceParsing.InPlaceParser.Perform | include/saxy/common.hpp:55-61 | one machine step over the caller's buffer, which never fails on allocation |
| InPlaceParsing.InPlaceParser.Advance | include/saxy/common.hpp:55-61 | one turn of the parse loop: the read position moves on or the state's rank goes down, and the loop goes on or comes back with `SAXY_RUN_CALLBACK`'s value |
| InPlaceParsing.InPlaceParser.Scan | tests/test/csv_test.cpp:120-130 | the in-place parse loop: `Scanned` over the unread bytes it covers |
| InPlaceParsing.InPlaceParser.ParseTo | tests/test/csv_test.cpp:126 | `parse(cb, i)`: `Scanned` over the input from the read position to offset `i` |
| InPlaceParsing.InPlaceParser.Parse | tests/test/csv_test.cpp:127 | `parse(cb)`: `Scanned` over the rest of the buffer |
| InPlaceParsing.InPlaceParser.Finish | tests/test/csv_test.cpp:91 | `finish`: `Ended` |
| InPlaceParsing.DocumentParsed | tests/test/csv_test.cpp:89-93 | a parse of the buffer, then `finish` when the parse returned true, decodes the whole document |
| InPlaceParsing.ParseBuffer | tests/test/csv_test.cpp:89-93 | the one-shot `parse(cb, data, size)` decodes the document and returns whether it ended outside `Error` |
| CsvTables.XmlCons | tests/test/csv_test.cpp:59-74 | the recorder's XML for a record followed by more records |
| CsvTables.FieldsXml | tests/test/csv_test.cpp:69-74 | what the recorder writes for the fields of a record: each one between brackets |
| CsvTables.EventsXml | tests/test/csv_test.cpp:59-74 | what the recorder writes for records: each one between braces |
| CsvTables.RecordsConvert | tests/test/csv_test.cpp:205-234 | any non-empty well-formed records form a conversion row with the XML they show |
| CsvTables.ConversionClean | tests/test/csv_test.cpp:93 | a conversion row's document does not fail, delivers no error, and `finish` adds nothing to it |
| CsvTables.StaticConversion | tests/test/csv_test.cpp:86-105 | the one-shot in-place parse of the document, with or without its last CRLF, returns true, writes the row's XML and counts no error |
| CsvTables.ChunkedConversion | tests/test/csv_test.cpp:107-130 | the document split at any offset: both calls return true and consume their chunks, and the recorder writes the row's XML with no error |
| CsvTables.FaultedConversion | tests/test/csv_test.cpp:132-151 | with an allocator that fails its second call: the first call returns true over the whole document, or it throws and a second call from `save` returns true over the rest; the XML is the row's, with no error |
| CsvTables.ThrownConversion | tests/test/csv_test.cpp:153-172 | with a callback that throws at one call: the same |
| CsvTables.StoppedConversion | tests/test/csv_test.cpp:174-186 | with a callback that answers `stop` at one call: both calls return true, the second one ends at the end, and the XML is the row's, with no error |
| CsvTables.AbortedConversion | tests/test/csv_test.cpp:188-202 | with a callback that answers `abort` at one call: when the first call returns false a second one returns true; the end is reached and the XML is the row's, with no error |
| CsvTables.RejectedDocument | tests/test/csv_test.cpp:386-412 | a document the machine rejects returns false from a fresh parse, counts one more error and records its code |
| CsvTables.EmptyDocument | tests/test/csv_test.cpp:414-422 | the empty document: `parse` returns true and delivers nothing, then `finish` returns false and reports `no_fields_in_record` once |
| CsvTables.PrefixLeaves | tests/test/csv_test.cpp:242-285 | the session an equality string leaves, written as a prefix of records |
| CsvTables.PrefixRejects | tests/test/csv_test.cpp:292-295 | an equality string that fails, written as a prefix and a rejected byte, ends in `Error` with its events |
| CsvTables.SessionAfterParse | tests/test/csv_test.cpp:299-313 | parsing any string on a fresh parser and a quiet recorder leaves the session the machine's run names |
| CsvTables.Conversion01 | tests/test/csv_test.cpp:206 | the row's document parses, in one call and without its last CRLF with `finish`, to exactly the row's XML, ending at the start of a row |
| CsvTables.Conversion02 | tests/test/csv_test.cpp:207 | the row's document parses, in one call and without its last CRLF with `finish`, to exactly the row's XML, ending at the start of a row |
| CsvTables.Conversion03 | tests/test/csv_test.cpp:208 | the row's document parses, in one call and without its last CRLF with `finish`, to exactly the row's XML, ending at the start of a row |
| CsvTables.Conversion04 | tests/test/csv_test.cpp:209 | the row's document parses, in one call and without its last CRLF with `finish`, to exactly the row's XML, ending at the start of a row |
| CsvTables.Conversion05 | tests/test/csv_test.cpp:210 | the row's document parses, in one call and without its last CRLF with `finish`, to exactly the row's XML, ending at the start of a row |
| CsvTables.Conversion06 | tests/test/csv_test.cpp:211 | the row's document parses, in one call and without its last CRLF with `finish`, to exactly the row's XML, ending at the start of a row |
| CsvTables.Conversion07 | tests/test/csv_test.cpp:212 | the row's document parses, in one call and without its last CRLF with `finish`, to exactly the row's XML, ending at the start of a row |
| CsvTables.Conversion08 | tests/test/csv_test.cpp:214 | the row's document parses, in one call and without its last CRLF with `finish`, to exactly the row's XML, ending at the start of a row |
| CsvTables.Conversion09 | tests/test/csv_test.cpp:215 | the row's document parses, in one call and without its last CRLF with `finish`, to exactly the row's XML, ending at the start of a row |
| CsvTables.Conversion10 | tests/test/csv_test.cpp:216 | the row's document parses, in one call and without its last CRLF with `finish`, to exactly the row's XML, ending at the start of a row |
| CsvTables.Conversion11 | tests/test/csv_test.cpp:217 | the row's document parses, in one call and without its last CRLF with `finish`, to exactly the row's XML, ending at the start of a row |
| CsvTables.Conversion12 | tests/test/csv_test.cpp:219 | the row's document parses, in one call and without its last CRLF with `finish`, to exactly the row's XML, ending at the start of a row |
| CsvTables.Conversion13 | tests/test/csv_test.cpp:220 | the row's document parses, in one call and without its last CRLF with `finish`, to exactly the row's XML, ending at the start of a row |
| CsvTables.Conversion14 | tests/test/csv_test.cpp:221 | the row's document parses, in one call and without its last CRLF with `finish`, to exactly the row's XML, ending at the start of a row |
| CsvTables.Conversion15 | tests/test/csv_test.cpp:222 | the row's document parses, in one call and without its last CRLF with `finish`, to exactly the row's XML, ending at the start of a row |
| CsvTables.Conversion16 | tests/test/csv_test.cpp:224 | the row's document parses, in one call and without its last CRLF with `finish`, to exactly the row's XML, ending at the start of a row |
| CsvTables.Conversion17 | tests/test/csv_test.cpp:225 | the row's document parses, in one call and without its last CRLF with `finish`, to exactly the row's XML, ending at the start of a row |
| CsvTables.Conversion18 | tests/test/csv_test.cpp:226 | the row's document parses, in one call and without its last CRLF with `finish`, to exactly the row's XML, ending at the start of a row |
| CsvTables.Conversion19 | tests/test/csv_test.cpp:227 | the row's document parses, in one call and without its last CRLF with `finish`, to exactly the row's XML, ending at the start of a row |
| CsvTables.Conversion20 | tests/test/csv_test.cpp:228 | the row's document parses, in one call and without its last CRLF with `finish`, to exactly the row's XML, ending at the start of a row |
| CsvTables.Conversion21 | tests/test/csv_test.cpp:229 | the row's document parses, in one call and without its last CRLF with `finish`, to exactly the row's XML, ending at the start of a row |
| CsvTables.Conversion22 | tests/test/csv_test.cpp:230 | the row's document parses, in one call and without its last CRLF with `finish`, to exactly the row's XML, ending at the start of a row |
| CsvTables.Conversion23 | tests/test/csv_test.cpp:231 | the row's document parses, in one call and without its last CRLF with `finish`, to exactly the row's XML, ending at the start of a row |
| CsvTables.Conversion24 | tests/test/csv_test.cpp:232 | the row's document parses, in one call and without its last CRLF with `finish`, to exactly the row's XML, ending at the start of a row |
| CsvTables.Conversion25 | tests/test/csv_test.cpp:233 | the row's document parses, in one call and without its last CRLF with `finish`, to exactly the row's XML, ending at the start of a row |
| CsvTables.ConversionTable | tests/test/csv_test.cpp:205-234 | every row of "Check conversion" converts to its XML |
| CsvTables.Equality246 | tests/test/csv_test.cpp:246 | the session the string leaves, the one every string of group 0 leaves |
| CsvTables.Equality247 | tests/test/csv_test.cpp:247 | the session the string leaves, the one every string of group 0 leaves |
| CsvTables.Equality253 | tests/test/csv_test.cpp:253 | the session the string leaves, the one every string of group 10 leaves |
| CsvTables.Equality256 | tests/test/csv_test.cpp:256 | the session the string leaves, the one every string of group 20 leaves |
| CsvTables.Equality257 | tests/test/csv_test.cpp:257 | the session the string leaves, the one every string of group 20 leaves |
| CsvTables.Equality258 | tests/test/csv_test.cpp:258 | the session the string leaves, the one every string of group 20 leaves |
| CsvTables.Equality261 | tests/test/csv_test.cpp:261 | the session the string leaves, the one every string of group 30 leaves |
| CsvTables.Equality262 | tests/test/csv_test.cpp:262 | the session the string leaves, the one every string of group 30 leaves |
| CsvTables.Equality263 | tests/test/csv_test.cpp:263 | the session the string leaves, the one every string of group 31 leaves |
| CsvTables.Equality264 | tests/test/csv_test.cpp:264 | the session the string leaves, the one every string of group 31 leaves |
| CsvTables.Equality265 | tests/test/csv_test.cpp:265 | the session the string leaves, the one every string of group 32 leaves |
| CsvTables.Equality268 | tests/test/csv_test.cpp:268 | the session the string leaves, the one every string of group 40 leaves |
| CsvTables.Equality269 | tests/test/csv_test.cpp:269 | the session the string leaves, the one every string of group 40 leaves |
| CsvTables.Equality270 | tests/test/csv_test.cpp:270 | the session the string leaves, the one every string of group 40 leaves |
| CsvTables.Equality271 | tests/test/csv_test.cpp:271 | the session the string leaves, the one every string of group 41 leaves |
| CsvTables.Equality274 | tests/test/csv_test.cpp:274 | the session the string leaves, the one every string of group 50 leaves |
| CsvTables.Equality275 | tests/test/csv_test.cpp:275 | the session the string leaves, the one every string of group 50 leaves |
| CsvTables.Equality276 | tests/test/csv_test.cpp:276 | the session the string leaves, the one every string of group 51 leaves |
| CsvTables.Equality279 | tests/test/csv_test.cpp:279 | the session the string leaves, the one every string of group 60 leaves |
| CsvTables.Equality280 | tests/test/csv_test.cpp:280 | the session the string leaves, the one every string of group 61 leaves |
| CsvTables.Equality283 | tests/test/csv_test.cpp:283 | the session the string leaves, the one every string of group 70 leaves |
| CsvTables.Equality284 | tests/test/csv_test.cpp:284 | the session the string leaves, the one every string of group 70 leaves |
| CsvTables.Equality285 | tests/test/csv_test.cpp:285 | the session the string leaves, the one every string of group 71 leaves |
| CsvTables.Equality293 | tests/test/csv_test.cpp:293 | the string fails and leaves the session in `Error` with an empty buffer, like the other strings of group 80 |
| CsvTables.Equality294 | tests/test/csv_test.cpp:294 | the string fails and leaves the session in `Error` with an empty buffer, like the other strings of group 80 |
| CsvTables.Equality295 | tests/test/csv_test.cpp:295 | the string fails and leaves the session in `Error` with an empty buffer, like the other strings of group 80 |
| CsvTables.EqualityTable | tests/test/csv_test.cpp:241-296 | the session of every string of "Check equality": equal within a group, different across groups; the unparsed parser is in `Begin`, not at the start of a row |
| CsvTables.GroupHashes | tests/test/csv_test.cpp:241-325 | the sessions of any two different groups of "Check equality", the unparsed parser's included, hash differently |
| CsvTables.Rejected388 | tests/test/csv_test.cpp:388-394 | the document's run: its events, with `misplaced_double_quotes` reported once and last, and the session in `Error` |
| CsvTables.Rejected397 | tests/test/csv_test.cpp:397-403 | the document's run: its events, with `text_after_closing_quotes` reported once and last, and the session in `Error` |
| CsvTables.Rejected406 | tests/test/csv_test.cpp:406-412 | the document's run: its events, with `unfinished_crlf` reported once and last, and the session in `Error` |
| CsvTables.Rejected425 | tests/test/csv_test.cpp:425-431 | the document's run: its events, with `no_fields_in_record` reported once and last, and the session in `Error` |
| CsvTables.ErrorTable | tests/test/csv_test.cpp:386-431 | each rejected document of "CSV errors are detected" fails with its own error code |

## Left out

- `include/saxy/csv.hpp` is not part of this model. The parser's states, its step function and its handling of the end of input are reconstructed from the test tables and the state names listed in `tests/test/csv_test.cpp:242-295`.
- `finish` inside an open quoted field reports `misplaced_double_quotes`, and after `""\r` it reports `unfinished_crlf`. No enabled test in `tests/test/csv_test.cpp` fixes either code, so the model chooses them. The disabled block at `tests/test/csv_test.cpp:334-384` expects `finish` after `"fie,ld` to deliver the field `fie,ld`; the model does not follow it.
- The SIMD dispatch traits `use_simd` (`include/saxy/common.hpp:130-158`) are left out. They only choose a faster scan of ordinary bytes and change no event.
- `hash()` is defined in `include/saxy/csv.hpp`, so its formula is chosen here: `CsvParser.SessionHash` puts the state's position in the low four bits and the pending bytes, read as a number in base 257, above them.
- CsvParser.Parser.Equals: that different sessions hash differently is proved only when their pending bytes are bytes, the range of a C++ `char`. Dafny's `char` is wider and is folded modulo 256.
- The `std::hash` specialisations are left out. They forward to `hash()`.
- An exception is an outcome value (`Threw`), not unwinding. The guards' destructors are `Exit` calls on every path out of their scope.
- Recorder.CsvTestParser.Deliver: `error_count` and `function_calls` are unbounded integers. The C++ `int` overflow is not modelled, because no test gets near it.
- `std::vector`'s own growth policy is not given by the source. `Sinks.CharVector.Grow` doubles the capacity, or grows to what is needed when that is more, and only a `SecondThrowAllocator` can make it fail.
- The `stack_allocator` over a 100-byte buffer ("Check equality") is modelled as the standard allocator. That allocator never fails: every string of the table fits in 100 bytes.
- CsvTables.SessionAfterParse states the session a parse leaves, not the results of the test's comparisons. That equal sessions compare equal and hash alike is `CsvParser.Parser.Equals`.
- InPlaceParsing.InPlaceParser: `parse(cb, i)` is read as "parse up to offset `i` of the buffer", the reading the statefulness test needs.
- The in-place sink is written through `append`, `append(first, last)` and `start`. The model does not choose where the parser would use `append_same` to skip copying.
- CsvTables.StaticConversion and InPlaceParsing.ParseBuffer: the one-shot `parse` is specified only for a quiet recorder, which is how the tests call it.
- CsvBehaviour.ChunksCompose and CsvTables.ChunkedConversion: these need the standard allocator and a quiet recorder, as the statefulness tests use.
- CsvBehaviour.Resumption: with a faulty allocator it needs a quiet recorder and a first call that did not finish. The case where the first call finishes is `CsvBehaviour.Whole`.
- The row at `tests/test/csv_test.cpp:207` is written in Dafny with its XML as a concatenation of three strings. It is the same string.
- Rows whose strings the C++ sources show with escapes (`\r`, `\n`, `\"`) are written with Dafny's identical escapes.
- The `stop` test checks `save == end()` only after the second call. `CsvTables.StoppedConversion` states `p1 + p2 == |csv|` the same way.
- `string_view` and the JSON parser are outside the core. So are the CommonMark test, the benchmark and the `csv_formatter` example.
