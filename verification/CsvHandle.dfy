/** The buffered input handle behind a parser. */
module CsvHandle {
  import opened Basics

  type Decoder<!K> = seq<Byte> -> Option<K>

  /** Records decoded up to the first line that fails, and whether none failed. */
  datatype Decoded<K> = Decoded(records: seq<K>, ok: bool)

  function DecodeAll<K>(decode: Decoder<K>, lines: seq<seq<Byte>>): Decoded<K> {
    if lines == [] then Decoded([], true)
    else
      var d := DecodeAll(decode, lines[..|lines| - 1]);
      if !d.ok then d
      else
        match decode(lines[|lines| - 1])
        case Some(k) => Decoded(d.records + [k], true)
        case None => Decoded(d.records, false)
  }

  ghost predicate AllDecode<K>(decode: Decoder<K>, lines: seq<seq<Byte>>) {
    forall i :: 0 <= i < |lines| ==> decode(lines[i]).Some?
  }

  /** The records of lines that all decode. */
  ghost function Values<K>(decode: Decoder<K>, lines: seq<seq<Byte>>): seq<K>
    requires AllDecode(decode, lines)
  {
    seq(|lines|, i requires 0 <= i < |lines| => decode(lines[i]).value)
  }

  /** Decoding succeeds exactly when every line decodes; otherwise it yields the records of
      the lines in front of the first that does not. */
  lemma {:induction false} DecodeAllExactly<K>(decode: Decoder<K>, lines: seq<seq<Byte>>)
    ensures var d := DecodeAll(decode, lines);
            && |d.records| <= |lines| && (d.ok <==> |d.records| == |lines|)
            && (forall i :: 0 <= i < |d.records| ==> decode(lines[i]) == Some(d.records[i]))
            && (!d.ok ==> decode(lines[|d.records|]) == None)
  {
    if lines != [] {
      DecodeAllExactly(decode, lines[..|lines| - 1]);
    }
  }

  lemma DecodeAllValues<K>(decode: Decoder<K>, lines: seq<seq<Byte>>)
    ensures DecodeAll(decode, lines).ok <==> AllDecode(decode, lines)
    ensures AllDecode(decode, lines) ==> DecodeAll(decode, lines).records == Values(decode, lines)
  {
    DecodeAllExactly(decode, lines);
  }

  /** Inserted records carry weight one. */
  function Inserts<K>(records: seq<K>): seq<(K, int)> {
    seq(|records|, i requires 0 <= i < |records| => (records[i], 1))
  }

  lemma InsertsOne<K>(record: K)
    ensures Inserts([record]) == [(record, 1)]
  {
  }

  lemma InsertsAppend<K>(a: seq<K>, b: seq<K>)
    ensures Inserts(a + b) == Inserts(a) + Inserts(b)
  {
  }

  /** The circuit's end: updates that the next step will see. */
  class CollectionHandle<K> {
    var queued: seq<(K, int)>

    constructor ()
      ensures queued == []
    {
      queued := [];
    }

    method Append(updates: seq<(K, int)>)
      modifies this
      ensures queued == old(queued) + updates
    {
      queued := queued + updates;
    }
  }

  class DeZSetHandle<K> {
    const handle: CollectionHandle<K>
    const decode: Decoder<K>
    var updates: seq<(K, int)>

    constructor (handle: CollectionHandle<K>, decode: Decoder<K>)
      ensures this.handle == handle && this.decode == decode && updates == []
    {
      this.handle := handle;
      this.decode := decode;
      updates := [];
    }

    method Insert(line: seq<Byte>) returns (ok: bool)
      modifies this
      ensures ok == decode(line).Some?
      ensures updates == old(updates) + if ok then [(decode(line).value, 1)] else []
    {
      var key := decode(line);
      ok := key.Some?;
      if ok {
        updates := updates + [(key.value, 1)];
      }
    }

    method Delete(line: seq<Byte>) returns (ok: bool)
      modifies this
      ensures ok == decode(line).Some?
      ensures updates == old(updates) + if ok then [(decode(line).value, -1)] else []
    {
      var key := decode(line);
      ok := key.Some?;
      if ok {
        updates := updates + [(key.value, -1)];
      }
    }

    method Flush()
      modifies this, handle
      ensures updates == [] && handle.queued == old(handle.queued) + old(updates)
    {
      handle.Append(updates);
      updates := [];
    }

    method ClearBuffer()
      modifies this
      ensures updates == []
    {
      updates := [];
    }

    /** A second buffer in front of the same stream. */
    method Fork() returns (r: DeZSetHandle<K>)
      ensures fresh(r) && r.handle == handle && r.decode == decode && r.updates == []
    {
      r := new DeZSetHandle(handle, decode);
    }
  }
}
