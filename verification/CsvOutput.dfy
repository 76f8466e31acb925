/** The buffering encoder. */
module CsvOutput {
  import opened Basics
  import opened CsvLines
  import opened CsvHandle
  import opened CsvInput

  type Encoder<!T> = T -> seq<Byte>

  /** What serde and the csv writer promise about one row. */
  ghost predicate LineCodec<T(!new)>(encode: Encoder<T>, decode: Decoder<T>) {
    forall t :: encode(t) != [] && NEWLINE !in encode(t) && decode(encode(t)) == Some(t)
  }

  function Text<T>(encode: Encoder<T>, rows: seq<T>): seq<Byte> {
    if rows == [] then [] else Text(encode, rows[..|rows| - 1]) + (encode(rows[|rows| - 1]) + [NEWLINE])
  }

  lemma TextSnoc<T>(encode: Encoder<T>, rows: seq<T>, row: T)
    ensures Text(encode, rows + [row]) == Text(encode, rows) + (encode(row) + [NEWLINE])
  {
    assert (rows + [row])[..|rows|] == rows;
  }

  /** The rows one by one, each behind its own newline. */
  function RowLines<T>(encode: Encoder<T>, rows: seq<T>): seq<seq<Byte>> {
    seq(|rows|, i requires 0 <= i < |rows| => encode(rows[i]) + [NEWLINE])
  }

  lemma {:induction false} TextIsRowLines<T>(encode: Encoder<T>, rows: seq<T>)
    ensures Text(encode, rows) == Flatten(RowLines(encode, rows))
  {
    if rows != [] {
      var n := |rows| - 1;
      TextIsRowLines(encode, rows[..n]);
      FlattenLast(RowLines(encode, rows));
      assert RowLines(encode, rows)[..n] == RowLines(encode, rows[..n]);
    }
  }

  lemma {:induction false} TextAppend<T>(encode: Encoder<T>, a: seq<T>, b: seq<T>)
    ensures Text(encode, a + b) == Text(encode, a) + Text(encode, b)
    decreases |b|
  {
    if b == [] {
      assert a + b == a;
    } else {
      assert (a + b)[..|a + b| - 1] == a + b[..|b| - 1];
      TextAppend(encode, a, b[..|b| - 1]);
    }
  }

  /** The rows in each buffer: all full but the last, none empty. */
  ghost predicate WellCut<T>(groups: seq<seq<T>>, size: nat) {
    && (forall i :: 0 <= i < |groups| ==> groups[i] != [] && |groups[i]| <= size)
    && (forall i :: 0 <= i < |groups| - 1 ==> |groups[i]| == size)
  }

  /** The bytes of each buffer. */
  function Buffers<T>(encode: Encoder<T>, groups: seq<seq<T>>): seq<seq<Byte>> {
    seq(|groups|, i requires 0 <= i < |groups| => Text(encode, groups[i]))
  }

  function Max(a: nat, b: nat): nat {
    if a < b then b else a
  }

  class OutputConsumer {
    var buffers: seq<seq<Byte>>

    constructor ()
      ensures buffers == []
    {
      buffers := [];
    }

    method PushBuffer(buffer: seq<Byte>)
      modifies this
      ensures buffers == old(buffers) + [buffer]
    {
      buffers := buffers + [buffer];
    }
  }

  class CsvEncoder<T> {
    const consumer: OutputConsumer
    const encode: Encoder<T>
    const bufferSize: nat
    var buffer: seq<Byte>

    constructor (consumer: OutputConsumer, encode: Encoder<T>, bufferSize: nat)
      ensures this.consumer == consumer && this.encode == encode && this.bufferSize == bufferSize && buffer == []
    {
      this.consumer := consumer;
      this.encode := encode;
      this.bufferSize := bufferSize;
      buffer := [];
    }

    /** Invariant of the encoding loops: full buffers have been pushed, and the writer
        holds fewer rows than fill one. */
    ghost predicate Encoding(groups: seq<seq<T>>, pending: seq<T>, out: seq<Byte>, count: nat, before: seq<seq<Byte>>)
      reads this, consumer
    {
      && buffer == [] && count == |pending| < Max(1, bufferSize) && out == Text(encode, pending)
      && (forall i :: 0 <= i < |groups| ==> |groups[i]| == Max(1, bufferSize))
      && consumer.buffers == before + Buffers(encode, groups)
    }

    /** One row goes to the writer; a full buffer goes to the consumer. */
    method WriteRow(row: T, out: seq<Byte>, count: nat, ghost groups: seq<seq<T>>, ghost pending: seq<T>,
                    ghost before: seq<seq<Byte>>)
      returns (out': seq<Byte>, count': nat, ghost groups': seq<seq<T>>, ghost pending': seq<T>)
      requires Encoding(groups, pending, out, count, before)
      modifies consumer
      ensures Encoding(groups', pending', out', count', before)
      ensures Flatten(groups') + pending' == Flatten(groups) + pending + [row]
    {
      groups', pending' := groups, pending + [row];
      out', count' := out + encode(row) + [NEWLINE], count + 1;
      TextSnoc(encode, pending, row);
      assert out + encode(row) + [NEWLINE] == out + (encode(row) + [NEWLINE]);
      assert Flatten(groups) + (pending + [row]) == Flatten(groups) + pending + [row];
      if count' >= bufferSize {
        FlattenAppend(groups, pending');
        assert Buffers(encode, groups + [pending']) == Buffers(encode, groups) + [out'];
        consumer.PushBuffer(out');
        groups', pending' := groups + [pending'], [];
        out', count' := [], 0;
      }
    }

    /** Encodes the rows of the batches in cursor order.  Returns, for the specification,
        the rows in each pushed buffer. */
    method Encode(batches: seq<seq<T>>) returns (ghost groups: seq<seq<T>>)
      requires buffer == []
      modifies this, consumer
      ensures buffer == []
      ensures Flatten(groups) == Flatten(batches) && WellCut(groups, Max(1, bufferSize))
      ensures consumer.buffers == old(consumer.buffers) + Buffers(encode, groups)
    {
      groups := [];
      ghost var pending: seq<T> := [];
      var out, count := buffer, 0;
      buffer := [];
      for b := 0 to |batches|
        invariant Encoding(groups, pending, out, count, old(consumer.buffers))
        invariant Flatten(groups) + pending == Flatten(batches[..b])
      {
        var batch := batches[b];
        for k := 0 to |batch|
          invariant Encoding(groups, pending, out, count, old(consumer.buffers))
          invariant Flatten(groups) + pending == Flatten(batches[..b]) + batch[..k]
        {
          assert Flatten(batches[..b]) + batch[..k + 1] == Flatten(batches[..b]) + batch[..k] + [batch[k]];
          out, count, groups, pending := WriteRow(batch[k], out, count, groups, pending, old(consumer.buffers));
        }
        assert batch[..|batch|] == batch;
        assert batches[..b + 1] == batches[..b] + [batch];
        FlattenAppend(batches[..b], batch);
      }
      assert batches[..|batches|] == batches;
      if count > 0 {
        FlattenAppend(groups, pending);
        assert Buffers(encode, groups + [pending]) == Buffers(encode, groups) + [out];
        consumer.PushBuffer(out);
        groups := groups + [pending];
        out := [];
      }
      buffer := out;
    }
  }

  lemma {:induction false} BuffersText<T>(encode: Encoder<T>, groups: seq<seq<T>>)
    ensures Flatten(Buffers(encode, groups)) == Text(encode, Flatten(groups))
  {
    if groups != [] {
      var n := |groups| - 1;
      BuffersText(encode, groups[..n]);
      TextAppend(encode, Flatten(groups[..n]), groups[n]);
      FlattenLast(groups);
      FlattenLast(Buffers(encode, groups));
      assert Buffers(encode, groups)[..n] == Buffers(encode, groups[..n]);
    }
  }

  lemma RowDecodes<T(!new)>(encode: Encoder<T>, decode: Decoder<T>, t: T)
    requires LineCodec(encode, decode)
    ensures Lines(encode(t) + [NEWLINE]) == [encode(t)]
    ensures DecodeAll(decode, [encode(t)]) == Decoded([t], true)
  {
    TerminatedLine(encode(t));
    assert [encode(t)][..0] == [];
  }

  /** Complete lines that decode to `rows`. */
  ghost predicate Spells<T>(decode: Decoder<T>, text: seq<Byte>, rows: seq<T>) {
    Terminated(text) && DecodeAll(decode, Lines(text)) == Decoded(rows, true)
  }

  /** One more row. */
  lemma SpellsNext<T(!new)>(encode: Encoder<T>, decode: Decoder<T>, text: seq<Byte>, rows: seq<T>, row: T)
    requires LineCodec(encode, decode) && Spells(decode, text, rows)
    ensures Spells(decode, text + (encode(row) + [NEWLINE]), rows + [row])
  {
    LinesAppend(text, encode(row) + [NEWLINE]);
    RowDecodes(encode, decode, row);
    DecodeAppend(decode, Lines(text), [encode(row)]);
  }

  lemma TextSpellsNext<T(!new)>(encode: Encoder<T>, decode: Decoder<T>, init: seq<T>, last: T, rows: seq<T>)
    requires LineCodec(encode, decode) && Spells(decode, Text(encode, init), init) && rows == init + [last]
    ensures Spells(decode, Text(encode, rows), rows)
  {
    SpellsNext(encode, decode, Text(encode, init), init, last);
    TextSnoc(encode, init, last);
  }

  lemma LastRow<T>(rows: seq<T>)
    requires rows != []
    ensures rows == rows[..|rows| - 1] + [rows[|rows| - 1]]
  {
  }

  lemma {:induction false} TextSpells<T(!new)>(encode: Encoder<T>, decode: Decoder<T>, rows: seq<T>)
    requires LineCodec(encode, decode)
    ensures Spells(decode, Text(encode, rows), rows)
  {
    if rows != [] {
      LastRow(rows);
      TextSpells(encode, decode, rows[..|rows| - 1]);
      TextSpellsNext(encode, decode, rows[..|rows| - 1], rows[|rows| - 1], rows);
    }
  }

  lemma TextDecodes<T(!new)>(encode: Encoder<T>, decode: Decoder<T>, rows: seq<T>)
    requires LineCodec(encode, decode)
    ensures AllDecode(decode, Lines(Text(encode, rows))) && Values(decode, Lines(Text(encode, rows))) == rows
  {
    TextSpells(encode, decode, rows);
    DecodeAllValues(decode, Lines(Text(encode, rows)));
  }

  /** Encode, then decode: whatever buffers the encoder pushed for `rows`, feeding their
      bytes to the parser under any re-chunking gives back `rows`. */
  lemma EncodeDecode<T(!new)>(encode: Encoder<T>, decode: Decoder<T>, groups: seq<seq<T>>, rows: seq<T>,
                       chunks: seq<seq<Byte>>)
    requires LineCodec(encode, decode) && Flatten(groups) == rows
    requires Flatten(chunks) == Flatten(Buffers(encode, groups))
    ensures var (records, leftover) := FedRecords(decode, [], chunks);
            records + EoiOutcome(decode, leftover).records == rows
  {
    BuffersText(encode, groups);
    TextDecodes(encode, decode, rows);
    ChunkingDoesNotMatter(decode, chunks);
  }
}
