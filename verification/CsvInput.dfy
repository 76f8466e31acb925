/** The incremental parser and the probe in front of it. */
module CsvInput {
  import opened Basics
  import opened CsvLines
  import opened CsvHandle

  /** What a call of the parser does: the records it inserts, whether it succeeds, and the
      incomplete line it keeps. */
  datatype Outcome<K> = Outcome(records: seq<K>, ok: bool, leftover: seq<Byte>)

  /** The text that a chunk completes. */
  function Completed(leftover: seq<Byte>, data: seq<Byte>): seq<Byte> {
    var cut := SplitOnNewline(data);
    if cut == 0 then [] else leftover + data[..cut]
  }

  function Kept(leftover: seq<Byte>, data: seq<Byte>): seq<Byte> {
    var cut := SplitOnNewline(data);
    if cut == 0 then leftover + data else data[cut..]
  }

  function InputOutcome<K>(decode: Decoder<K>, leftover: seq<Byte>, data: seq<Byte>): Outcome<K> {
    var d := DecodeAll(decode, Lines(Completed(leftover, data)));
    Outcome(d.records, d.ok, Kept(leftover, data))
  }

  function EoiOutcome<K>(decode: Decoder<K>, leftover: seq<Byte>): Outcome<K> {
    var d := DecodeAll(decode, Lines(leftover));
    Outcome(d.records, d.ok, leftover)
  }

  class CsvParser<K> {
    const input: DeZSetHandle<K>
    var leftover: seq<Byte>

    constructor (input: DeZSetHandle<K>)
      ensures this.input == input && leftover == []
    {
      this.input := input;
      leftover := [];
    }

    method ParseFromReader(text: seq<Byte>) returns (count: nat, ok: bool)
      modifies input
      ensures var d := DecodeAll(input.decode, Lines(text));
              ok == d.ok && count == |d.records| && input.updates == old(input.updates) + Inserts(d.records)
      ensures ok <==> AllDecode(input.decode, Lines(text))
    {
      var lines := Lines(text);
      ghost var sofar: seq<K> := [];
      count, ok := 0, true;
      for i := 0 to |lines|
        invariant ok && DecodesTo(input.decode, lines[..i], sofar, true) && count == |sofar|
        invariant input.updates == old(input.updates) + Inserts(sofar)
      {
        ok := input.Insert(lines[i]);
        DecodesNext(input.decode, lines, i, sofar);
        if !ok {
          break;
        }
        InsertsAppend(sofar, [input.decode(lines[i]).value]);
        sofar := sofar + [input.decode(lines[i]).value];
        count := count + 1;
      }
      if ok {
        assert lines[..|lines|] == lines;
      }
      DecodeAllValues(input.decode, lines);
    }

    method Input(data: seq<Byte>) returns (count: nat, ok: bool)
      modifies this, input
      ensures var r := InputOutcome(input.decode, old(leftover), data);
              && ok == r.ok && count == |r.records| && leftover == r.leftover
              && input.updates == old(input.updates) + Inserts(r.records)
    {
      var cut := SplitOnNewline(data);
      if cut == 0 {
        leftover := leftover + data;
        return 0, true;
      }
      count, ok := ParseFromReader(leftover + data[..cut]);
      leftover := data[cut..];
    }

    method Eoi() returns (count: nat, ok: bool)
      modifies input
      ensures var r := EoiOutcome(input.decode, leftover);
              ok == r.ok && count == |r.records| && input.updates == old(input.updates) + Inserts(r.records)
    {
      if leftover == [] {
        return 0, true;
      }
      count, ok := ParseFromReader(leftover);
    }
  }

  ghost predicate DecodesTo<K>(decode: Decoder<K>, lines: seq<seq<Byte>>, records: seq<K>, ok: bool) {
    DecodeAll(decode, lines) == Decoded(records, ok)
  }

  /** One more line, and the rest of the lines behind one that does not decode. */
  lemma DecodesNext<K>(decode: Decoder<K>, lines: seq<seq<Byte>>, i: nat, records: seq<K>)
    requires i < |lines| && DecodesTo(decode, lines[..i], records, true)
    ensures decode(lines[i]).Some? ==> DecodesTo(decode, lines[..i + 1], records + [decode(lines[i]).value], true)
    ensures decode(lines[i]).None? ==> DecodesTo(decode, lines, records, false)
  {
    assert lines[..i + 1][..i] == lines[..i];
    if decode(lines[i]).None? {
      FailureStays(decode, lines, i + 1);
    }
  }

  lemma {:induction false} FailureStays<K>(decode: Decoder<K>, lines: seq<seq<Byte>>, n: nat)
    requires n <= |lines| && !DecodeAll(decode, lines[..n]).ok
    ensures DecodeAll(decode, lines) == DecodeAll(decode, lines[..n])
    decreases |lines|
  {
    if n == |lines| {
      assert lines[..n] == lines;
    } else {
      var init := lines[..|lines| - 1];
      assert init[..n] == lines[..n];
      FailureStays(decode, init, n);
    }
  }

  // ---------------------------------------------------------------- chunking

  /** The lines that successive `input` calls parse, and what is left over. */
  function FedText(leftover: seq<Byte>, chunks: seq<seq<Byte>>): (seq<Byte>, seq<Byte>) {
    if chunks == [] then ([], leftover)
    else
      var (text, kept) := FedText(leftover, chunks[..|chunks| - 1]);
      (text + Completed(kept, chunks[|chunks| - 1]), Kept(kept, chunks[|chunks| - 1]))
  }

  /** Moving the border between two pieces of text. */
  lemma Regroup<T>(text: seq<T>, completed: seq<T>, rest: seq<T>, kept: seq<T>, last: seq<T>, leftover: seq<T>,
                   flat: seq<T>)
    requires completed + rest == kept + last && text + kept == leftover + flat
    ensures text + completed + rest == leftover + (flat + last)
  {
    assert text + completed + rest == text + (completed + rest);
    assert text + (kept + last) == text + kept + last;
  }

  lemma TerminatedAppend(a: seq<Byte>, b: seq<Byte>)
    requires Terminated(a) && Terminated(b)
    ensures Terminated(a + b)
  {
  }

  /** A chunk is split behind its last newline. */
  lemma ChunkSplits(kept: seq<Byte>, data: seq<Byte>)
    requires NEWLINE !in kept
    ensures Completed(kept, data) + Kept(kept, data) == kept + data
    ensures Terminated(Completed(kept, data)) && NEWLINE !in Kept(kept, data)
  {
    var cut := SplitOnNewline(data);
    assert data[..cut] + data[cut..] == data;
    if cut == 0 {
      assert data[0..] == data;
    } else {
      assert (kept + data[..cut])[|kept| + cut - 1] == data[..cut][cut - 1];
    }
  }

  /** However a stream is cut, the text parsed so far and the leftover make it up, and the
      cut between them is behind a newline. */
  lemma {:induction false} FedIsPrefix(leftover: seq<Byte>, chunks: seq<seq<Byte>>)
    requires NEWLINE !in leftover
    ensures var (text, kept) := FedText(leftover, chunks);
            text + kept == leftover + Flatten(chunks) && Terminated(text) && NEWLINE !in kept
  {
    if chunks == [] {
      assert [] + leftover == leftover + [];
    } else {
      var init, last := chunks[..|chunks| - 1], chunks[|chunks| - 1];
      FedIsPrefix(leftover, init);
      FlattenLast(chunks);
      var (text, kept) := FedText(leftover, init);
      ChunkSplits(kept, last);
      TerminatedAppend(text, Completed(kept, last));
      Regroup(text, Completed(kept, last), Kept(kept, last), kept, last, leftover, Flatten(init));
    }
  }

  /** The records inserted by successive `input` calls. */
  function FedRecords<K>(decode: Decoder<K>, leftover: seq<Byte>, chunks: seq<seq<Byte>>): (seq<K>, seq<Byte>) {
    if chunks == [] then ([], leftover)
    else
      var (records, kept) := FedRecords(decode, leftover, chunks[..|chunks| - 1]);
      var r := InputOutcome(decode, kept, chunks[|chunks| - 1]);
      (records + r.records, r.leftover)
  }

  lemma {:induction false} DecodeAppend<K>(decode: Decoder<K>, a: seq<seq<Byte>>, b: seq<seq<Byte>>)
    ensures var d, e := DecodeAll(decode, a), DecodeAll(decode, b);
            DecodeAll(decode, a + b) == if d.ok then Decoded(d.records + e.records, e.ok) else d
    decreases |b|
  {
    if b == [] {
      assert a + b == a;
    } else {
      assert (a + b)[..|a + b| - 1] == a + b[..|b| - 1];
      DecodeAppend(decode, a, b[..|b| - 1]);
    }
  }

  lemma {:induction false} FedRecordsAre<K>(decode: Decoder<K>, leftover: seq<Byte>, chunks: seq<seq<Byte>>)
    requires NEWLINE !in leftover && DecodeAll(decode, Lines(FedText(leftover, chunks).0)).ok
    ensures FedRecords(decode, leftover, chunks) ==
              (DecodeAll(decode, Lines(FedText(leftover, chunks).0)).records, FedText(leftover, chunks).1)
  {
    if chunks != [] {
      var init, last := chunks[..|chunks| - 1], chunks[|chunks| - 1];
      FedIsPrefix(leftover, init);
      var (text, kept) := FedText(leftover, init);
      LinesAppend(text, Completed(kept, last));
      DecodeAppend(decode, Lines(text), Lines(Completed(kept, last)));
      FedRecordsAre(decode, leftover, init);
    }
  }

  /** Chunking does not matter: for every stream whose lines all decode and every way of
      cutting it, the records inserted by the `input` calls and the final `eoi` are those
      of parsing the whole stream at once; the leftover never holds a newline. */
  lemma ChunkingDoesNotMatter<K>(decode: Decoder<K>, chunks: seq<seq<Byte>>)
    requires AllDecode(decode, Lines(Flatten(chunks)))
    ensures var (records, leftover) := FedRecords(decode, [], chunks);
            var last := EoiOutcome(decode, leftover);
            && records + last.records == Values(decode, Lines(Flatten(chunks)))
            && last.ok && NEWLINE !in leftover
  {
    DecodeAllValues(decode, Lines(Flatten(chunks)));
    FedIsPrefix([], chunks);
    var (text, kept) := FedText([], chunks);
    assert text + kept == Flatten(chunks);
    LinesAppend(text, kept);
    DecodeAppend(decode, Lines(text), Lines(kept));
    FedRecordsAre(decode, [], chunks);
  }

  /** A new parser, fed chunk by chunk and told the end, leaves in its handle's buffer what
      one parse of the whole stream would leave there, if all lines decode. */
  method ParseStream<K>(parser: CsvParser<K>, chunks: seq<seq<Byte>>)
    requires parser.leftover == [] && parser.input.updates == []
    modifies parser, parser.input
    ensures var decode, lines := parser.input.decode, Lines(Flatten(chunks));
            AllDecode(decode, lines) ==> parser.input.updates == Inserts(Values(decode, lines))
  {
    ghost var decode := parser.input.decode;
    for i := 0 to |chunks|
      invariant parser.leftover == FedRecords(decode, [], chunks[..i]).1
      invariant parser.input.updates == Inserts(FedRecords(decode, [], chunks[..i]).0)
    {
      assert chunks[..i + 1][..i] == chunks[..i];
      ghost var r := InputOutcome(decode, parser.leftover, chunks[i]);
      InsertsAppend(FedRecords(decode, [], chunks[..i]).0, r.records);
      var _, _ := parser.Input(chunks[i]);
    }
    assert chunks[..|chunks|] == chunks;
    var _, _ := parser.Eoi();
    ghost var (records, leftover) := FedRecords(decode, [], chunks);
    InsertsAppend(records, EoiOutcome(decode, leftover).records);
    if AllDecode(decode, Lines(Flatten(chunks))) {
      ChunkingDoesNotMatter(decode, chunks);
    }
  }

  // ---------------------------------------------------------------- the probe

  /** What reaches the circuit from a sequence of chunks, and how many records are counted. */
  datatype ProbeState<K> = ProbeState(delivered: seq<(K, int)>, total: nat, leftover: seq<Byte>)

  function ProbeInput<K>(decode: Decoder<K>, s: ProbeState<K>, data: seq<Byte>): ProbeState<K> {
    var r := InputOutcome(decode, s.leftover, data);
    if r.ok then ProbeState(s.delivered + Inserts(r.records), s.total + |r.records|, r.leftover)
    else s.(leftover := r.leftover)
  }

  function ProbeEoi<K>(decode: Decoder<K>, s: ProbeState<K>): ProbeState<K> {
    var r := EoiOutcome(decode, s.leftover);
    if r.ok then s.(delivered := s.delivered + Inserts(r.records), total := s.total + |r.records|) else s
  }

  /** The leftover survives the end of input, so a second `eoi` delivers its record again,
      exactly when there is one. */
  lemma EoiRepeatsExactly<K>(decode: Decoder<K>, s: ProbeState<K>)
    requires NEWLINE !in s.leftover
    ensures var once := ProbeEoi(decode, s);
            var twice := ProbeEoi(decode, once);
            if s.leftover != [] && decode(s.leftover).Some? then
              var record := (decode(s.leftover).value, 1);
              once.delivered == s.delivered + [record] && twice.delivered == s.delivered + [record] + [record]
            else
              twice == once == s
  {
    OneLine(s.leftover);
    if s.leftover == [] {
      assert s.delivered + Inserts([]) == s.delivered;
    } else {
      assert [s.leftover][..0] == [];
      if decode(s.leftover).Some? {
        var record := decode(s.leftover).value;
        assert DecodeAll(decode, [s.leftover]) == Decoded([record], true);
        InsertsOne(record);
        assert EoiOutcome(decode, s.leftover) == Outcome([record], true, s.leftover);
        var once := ProbeEoi(decode, s);
        assert once.delivered == s.delivered + [(record, 1)] && once.leftover == s.leftover;
        assert ProbeEoi(decode, once).delivered == once.delivered + [(record, 1)];
      }
    }
  }

  /** For instance the single byte 65, with a decoder that takes every line as it is. */
  lemma EoiRepeats(decode: Decoder<seq<Byte>>, s: ProbeState<seq<Byte>>)
    requires s.leftover == [65] && s.delivered == [] && decode(s.leftover) == Some(s.leftover)
    ensures ProbeEoi(decode, ProbeEoi(decode, s)).delivered == [([65], 1), ([65], 1)]
  {
    EoiRepeatsExactly(decode, s);
  }

  class InputProbe<K> {
    const parser: CsvParser<K>
    var total: nat
    var parseErrors: nat

    constructor (parser: CsvParser<K>)
      ensures this.parser == parser && total == 0 && parseErrors == 0
    {
      this.parser := parser;
      total := 0;
      parseErrors := 0;
    }

    ghost function State(): ProbeState<K>
      reads this, parser, parser.input, parser.input.handle
    {
      ProbeState(parser.input.handle.queued, total, parser.leftover)
    }

    /** Nothing waits in the handle's buffer between calls. */
    ghost predicate Valid()
      reads parser.input
    {
      parser.input.updates == []
    }

    method Input(data: seq<Byte>)
      requires Valid()
      modifies this, parser, parser.input, parser.input.handle
      ensures Valid() && State() == ProbeInput(parser.input.decode, old(State()), data)
      ensures var lines := Lines(Completed(old(parser.leftover), data));
              parseErrors == old(parseErrors) + if AllDecode(parser.input.decode, lines) then 0 else 1
    {
      var count, ok := parser.Input(data);
      ghost var r := InputOutcome(parser.input.decode, old(parser.leftover), data);
      assert parser.input.updates == Inserts(r.records);
      DecodeAllValues(parser.input.decode, Lines(Completed(old(parser.leftover), data)));
      if ok {
        parser.input.Flush();
        total := total + count;
      } else {
        parser.input.ClearBuffer();
        parseErrors := parseErrors + 1;
      }
    }

    /** A failing `eoi` delivers nothing either. */
    method Eoi() returns (ok: bool)
      requires Valid()
      modifies this, parser, parser.input, parser.input.handle
      ensures Valid() && State() == ProbeEoi(parser.input.decode, old(State()))
      ensures ok == EoiOutcome(parser.input.decode, old(parser.leftover)).ok && parseErrors == old(parseErrors)
    {
      var count;
      count, ok := parser.Eoi();
      ghost var r := EoiOutcome(parser.input.decode, old(parser.leftover));
      assert parser.input.updates == Inserts(r.records);
      if ok {
        parser.input.Flush();
        total := total + count;
      } else {
        parser.input.ClearBuffer();
      }
    }
  }

  function ProbeRun<K>(decode: Decoder<K>, chunks: seq<seq<Byte>>): ProbeState<K> {
    if chunks == [] then ProbeState([], 0, [])
    else ProbeInput(decode, ProbeRun(decode, chunks[..|chunks| - 1]), chunks[|chunks| - 1])
  }

  /** A new probe, fed chunk by chunk. */
  method FeedProbe<K>(probe: InputProbe<K>, chunks: seq<seq<Byte>>)
    requires probe.Valid() && probe.State() == ProbeState([], 0, [])
    modifies probe, probe.parser, probe.parser.input, probe.parser.input.handle
    ensures probe.Valid() && probe.State() == ProbeRun(probe.parser.input.decode, chunks)
  {
    for i := 0 to |chunks|
      invariant probe.Valid() && probe.State() == ProbeRun(probe.parser.input.decode, chunks[..i])
    {
      assert chunks[..i + 1][..i] == chunks[..i];
      probe.Input(chunks[i]);
    }
    assert chunks[..|chunks|] == chunks;
  }

  /** The lines that chunk `k` completes, whichever of the earlier chunks failed. */
  function ChunkText(chunks: seq<seq<Byte>>, k: nat): seq<Byte>
    requires k < |chunks|
  {
    Completed(FedText([], chunks[..k]).1, chunks[k])
  }

  /** The records of the first `n` chunks, leaving out those chunks that complete a line which
      does not decode. */
  ghost function GoodRecords<K>(decode: Decoder<K>, chunks: seq<seq<Byte>>, n: nat): seq<K>
    requires n <= |chunks|
  {
    if n == 0 then []
    else
      var lines, good := Lines(ChunkText(chunks, n - 1)), GoodRecords(decode, chunks, n - 1);
      if AllDecode(decode, lines) then good + Values(decode, lines) else good
  }

  lemma {:induction false} GoodRecordsPrefix<K>(decode: Decoder<K>, chunks: seq<seq<Byte>>, n: nat, m: nat)
    requires n <= m <= |chunks|
    ensures GoodRecords(decode, chunks[..m], n) == GoodRecords(decode, chunks, n)
  {
    if n > 0 {
      assert chunks[..m][..n - 1] == chunks[..n - 1];
      GoodRecordsPrefix(decode, chunks, n - 1, m);
    }
  }

  /** Delivery is all or nothing per chunk: the circuit receives exactly the records of the
      chunks that parsed, the total counts exactly those, and a chunk that fails leaves
      the same leftover as one that parses. */
  lemma {:induction false} AllOrNothing<K>(decode: Decoder<K>, chunks: seq<seq<Byte>>)
    ensures var s := ProbeRun(decode, chunks);
            var records := GoodRecords(decode, chunks, |chunks|);
            && s.delivered == Inserts(records) && s.total == |records|
            && s.leftover == FedText([], chunks).1
  {
    if chunks != [] {
      var n := |chunks| - 1;
      var init := chunks[..n];
      AllOrNothing(decode, init);
      GoodRecordsPrefix(decode, chunks, n, n);
      NextChunk(decode, ProbeRun(decode, init), GoodRecords(decode, chunks, n), chunks[n]);
    }
  }

  /** One more chunk. */
  lemma NextChunk<K>(decode: Decoder<K>, s: ProbeState<K>, records: seq<K>, data: seq<Byte>)
    requires s.delivered == Inserts(records) && s.total == |records|
    ensures var lines := Lines(Completed(s.leftover, data));
            var more := if AllDecode(decode, lines) then records + Values(decode, lines) else records;
            var s' := ProbeInput(decode, s, data);
            s'.delivered == Inserts(more) && s'.total == |more| && s'.leftover == Kept(s.leftover, data)
  {
    var lines := Lines(Completed(s.leftover, data));
    DecodeAllValues(decode, lines);
    InsertsAppend(records, DecodeAll(decode, lines).records);
  }
}
