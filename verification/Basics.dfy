/** What several modules share. */
module Basics {

  datatype Option<+T> = None | Some(value: T)

  type Byte = x: int | 0 <= x < 256

  function Min(a: nat, b: nat): nat {
    if a < b then a else b
  }

  /** Concatenation, item by item. */
  function Prepend<T>(front: seq<T>, s: seq<T>): seq<T> {
    if front == [] then s else [front[0]] + Prepend(front[1..], s)
  }

  lemma {:induction false} PrependAppends<T>(front: seq<T>, s: seq<T>)
    ensures Prepend(front, s) == front + s
  {
    if front != [] {
      PrependAppends(front[1..], s);
      assert front == [front[0]] + front[1..];
    }
  }

  function Flatten<T>(parts: seq<seq<T>>): seq<T> {
    if parts == [] then [] else Prepend(parts[0], Flatten(parts[1..]))
  }

  lemma FlattenOne<T>(part: seq<T>)
    ensures Flatten([part]) == part
  {
    assert [part][1..] == [];
    PrependAppends(part, []);
  }

  lemma FlattenCons<T>(front: seq<T>, parts: seq<seq<T>>)
    ensures Flatten([front] + parts) == front + Flatten(parts)
  {
    assert ([front] + parts)[1..] == parts;
    PrependAppends(front, Flatten(parts));
  }

  lemma {:induction false} FlattenAppend<T>(parts: seq<seq<T>>, part: seq<T>)
    ensures Flatten(parts + [part]) == Flatten(parts) + part
  {
    if parts == [] {
      assert parts + [part] == [part];
      FlattenOne(part);
    } else {
      var rest := parts[1..];
      FlattenAppend(rest, part);
      FlattenCons(parts[0], rest + [part]);
      FlattenCons(parts[0], rest);
      assert parts == [parts[0]] + rest;
      assert parts + [part] == [parts[0]] + (rest + [part]);
    }
  }

  lemma FlattenLast<T>(parts: seq<seq<T>>)
    requires parts != []
    ensures Flatten(parts) == Flatten(parts[..|parts| - 1]) + parts[|parts| - 1]
  {
    var n := |parts| - 1;
    assert parts == parts[..n] + [parts[n]];
    FlattenAppend(parts[..n], parts[n]);
  }

  lemma {:induction false} SubsetSize<T>(a: set<T>, b: set<T>)
    requires a <= b
    ensures |a| <= |b|
    ensures |a| == |b| ==> a == b
    decreases |a|
  {
    if a != {} {
      var t :| t in a;
      SubsetSize(a - {t}, b - {t});
      assert a == a - {t} + {t} && b == b - {t} + {t};
    } else if b != {} {
      var t :| t in b;
      assert |b| == |b - {t}| + 1;
    }
  }
}
