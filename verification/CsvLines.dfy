/**
 Lines of text, as the CSV reader sees them: it splits at newlines and skips empty lines.
 */
module CsvLines {
  import opened Basics

  const NEWLINE: Byte := 10

  function FirstNewline(data: seq<Byte>): (k: nat)
    ensures k <= |data|
    ensures k < |data| ==> data[k] == NEWLINE
    ensures forall i :: 0 <= i < k ==> data[i] != NEWLINE
  {
    if data == [] || data[0] == NEWLINE then 0 else 1 + FirstNewline(data[1..])
  }

  function Lines(data: seq<Byte>): seq<seq<Byte>> {
    if data == [] then []
    else
      var k := FirstNewline(data);
      var rest := if k == |data| then [] else Lines(data[k + 1..]);
      if k == 0 then rest else [data[..k]] + rest
  }

  predicate Terminated(data: seq<Byte>) {
    data == [] || data[|data| - 1] == NEWLINE
  }

  lemma FirstNewlineIs(data: seq<Byte>, k: nat)
    requires k < |data| && data[k] == NEWLINE && forall i :: 0 <= i < k ==> data[i] != NEWLINE
    ensures FirstNewline(data) == k
  {
  }

  /** No line is empty, and none holds a newline. */
  lemma {:induction false} LinesAreLines(data: seq<Byte>, i: nat)
    requires i < |Lines(data)|
    ensures Lines(data)[i] != [] && NEWLINE !in Lines(data)[i]
    decreases |data|
  {
    var k := FirstNewline(data);
    if k > 0 && i == 0 {
      assert Lines(data)[0] == data[..k];
    } else {
      LinesAreLines(data[k + 1..], if k == 0 then i else i - 1);
    }
  }

  /** An empty line is no line. */
  lemma NoEmptyLine()
    ensures Lines([NEWLINE]) == []
  {
    assert [NEWLINE][1..] == [];
  }

  /** Text that ends with a newline can be split off. */
  lemma {:induction false} LinesAppend(a: seq<Byte>, b: seq<Byte>)
    requires Terminated(a)
    ensures Lines(a + b) == Lines(a) + Lines(b)
    decreases |a|
  {
    if a == [] {
      assert a + b == b;
    } else {
      var k := FirstNewline(a);
      FirstNewlineIs(a + b, k);
      assert (a + b)[..k] == a[..k];
      assert (a + b)[k + 1..] == a[k + 1..] + b;
      LinesAppend(a[k + 1..], b);
    }
  }

  /** A newline-free piece of text is one line, or none if it is empty. */
  lemma OneLine(line: seq<Byte>)
    requires NEWLINE !in line
    ensures Lines(line) == if line == [] then [] else [line]
  {
    if line != [] {
      var k := FirstNewline(line);
      assert line[..k] == line;
    }
  }

  lemma TerminatedLine(line: seq<Byte>)
    requires NEWLINE !in line && line != []
    ensures Lines(line + [NEWLINE]) == [line]
  {
    FirstNewlineIs(line + [NEWLINE], |line|);
    assert (line + [NEWLINE])[..|line|] == line;
  }

  /** `split_on_newline`: the index behind the last newline. */
  function SplitOnNewline(data: seq<Byte>): (cut: nat)
    ensures cut <= |data|
    ensures Terminated(data[..cut])
    ensures NEWLINE !in data[cut..]
  {
    if data == [] || data[|data| - 1] == NEWLINE then |data|
    else
      var init := data[..|data| - 1];
      var cut := SplitOnNewline(init);
      assert data[..cut] == init[..cut];
      assert data[cut..] == init[cut..] + [data[|data| - 1]];
      cut
  }
}
