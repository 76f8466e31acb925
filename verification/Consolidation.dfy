/**
 Consolidation of weighted records: sort by key, add up the weights of equal keys, drop
 what adds up to zero.
 */
module Consolidation {
  import opened ZSets

  type Record = (int, int)

  ghost predicate Sorted(s: seq<Record>) {
    forall i, j :: 0 <= i < j < |s| ==> s[i].0 <= s[j].0
  }

  ghost predicate Canonical(s: seq<Record>) {
    && (forall i, j :: 0 <= i < j < |s| ==> s[i].0 < s[j].0)
    && (forall i :: 0 <= i < |s| ==> s[i].1 != 0)
  }

  /** `r` is a consolidated form of `s`. */
  ghost predicate Consolidates(s: seq<Record>, r: seq<Record>) {
    Canonical(r) && forall k :: Weight(r, k) == Weight(s, k)
  }

  // ---------------------------------------------------------------- weights

  lemma WeightOne(r: Record, k: int)
    ensures Weight([r], k) == if r.0 == k then r.1 else 0
  {
    assert [r][..0] == [];
  }

  lemma {:induction false} WeightAbsent(s: seq<Record>, k: int)
    requires forall i :: 0 <= i < |s| ==> s[i].0 != k
    ensures Weight(s, k) == 0
  {
    if s != [] {
      WeightAbsent(s[..|s| - 1], k);
    }
  }

  /** In a canonical list the weight of a key is the weight stored with it. */
  lemma WeightCanonical(s: seq<Record>, i: nat)
    requires Canonical(s) && i < |s|
    ensures Weight(s, s[i].0) == s[i].1
  {
    assert s == s[..i] + [s[i]] + s[i + 1..];
    var k := s[i].0;
    WeightAppend(s[..i] + [s[i]], s[i + 1..], k);
    WeightAppend(s[..i], [s[i]], k);
    WeightOne(s[i], k);
    WeightAbsent(s[..i], k);
    WeightAbsent(s[i + 1..], k);
  }

  /** The order of the records does not matter to the weights. */
  lemma {:induction false} WeightPermutation(s: seq<Record>, t: seq<Record>, k: int)
    requires multiset(s) == multiset(t)
    ensures Weight(s, k) == Weight(t, k)
    decreases |s|
  {
    if s == [] {
      assert |t| == |multiset(t)| == 0;
    } else {
      var last := s[|s| - 1];
      assert last in multiset(s) && last in t;
      var j :| 0 <= j < |t| && t[j] == last;
      var rest := t[..j] + t[j + 1..];
      assert s == s[..|s| - 1] + [last];
      assert t == t[..j] + [last] + t[j + 1..];
      assert multiset(s[..|s| - 1]) == multiset(s) - multiset{last};
      assert multiset(rest) == multiset(t) - multiset{last};
      WeightPermutation(s[..|s| - 1], rest, k);
      WeightAppend(t[..j] + [last], t[j + 1..], k);
      WeightAppend(t[..j], [last], k);
      WeightAppend(t[..j], t[j + 1..], k);
      WeightOne(last, k);
    }
  }

  // ---------------------------------------------------------------- uniqueness

  ghost predicate SameWeights(r: seq<Record>, r': seq<Record>) {
    forall k :: Weight(r, k) == Weight(r', k)
  }

  lemma HasKey(r: seq<Record>, r': seq<Record>, i: nat)
    requires Canonical(r) && Canonical(r') && i < |r| && Weight(r', r[i].0) == Weight(r, r[i].0)
    ensures exists j :: 0 <= j < |r'| && r'[j] == r[i]
  {
    WeightCanonical(r, i);
    if forall j :: 0 <= j < |r'| ==> r'[j].0 != r[i].0 {
      WeightAbsent(r', r[i].0);
    } else {
      var j :| 0 <= j < |r'| && r'[j].0 == r[i].0;
      WeightCanonical(r', j);
    }
  }

  /** The largest keys agree. */
  lemma SameLast(r: seq<Record>, r': seq<Record>)
    requires Canonical(r) && Canonical(r') && r != [] && SameWeights(r, r')
    ensures r' != [] && r[|r| - 1] == r'[|r'| - 1]
  {
    var n := |r| - 1;
    HasKey(r, r', n);
    var j :| 0 <= j < |r'| && r'[j] == r[n];
    var m := |r'| - 1;
    HasKey(r', r, m);
    var i :| 0 <= i < |r| && r[i] == r'[m];
    assert j == m;
  }

  lemma SameRest(r: seq<Record>, r': seq<Record>, init: seq<Record>, init': seq<Record>)
    requires r != [] && r' != [] && r[|r| - 1] == r'[|r'| - 1] && SameWeights(r, r')
    requires init == r[..|r| - 1] && init' == r'[..|r'| - 1]
    ensures SameWeights(init, init')
  {
    forall k ensures Weight(init, k) == Weight(init', k) {
      assert Weight(r, k) == Weight(r', k);
    }
  }

  /** There is one consolidated form: equal weights make equal lists. */
  lemma {:induction false} Unique(r: seq<Record>, r': seq<Record>)
    requires Canonical(r) && Canonical(r') && SameWeights(r, r')
    ensures r == r'
    decreases |r|
  {
    if r == [] {
      if r' != [] {
        HasKey(r', r, 0);
      }
    } else {
      SameLast(r, r');
      var n, m := |r| - 1, |r'| - 1;
      SameRest(r, r', r[..n], r'[..m]);
      Unique(r[..n], r'[..m]);
      assert r == r[..n] + [r[n]] && r' == r'[..m] + [r'[m]];
    }
  }

  /** Whatever order the sort leaves equal keys in, stable or not, the result is the same. */
  lemma SortsAgree(s: seq<Record>, t: seq<Record>, t': seq<Record>, r: seq<Record>, r': seq<Record>)
    requires multiset(t) == multiset(s) && multiset(t') == multiset(s)
    requires Consolidates(t, r) && Consolidates(t', r')
    ensures Consolidates(s, r) && r == r'
  {
    forall k ensures Weight(r, k) == Weight(s, k) && Weight(r', k) == Weight(s, k) {
      WeightPermutation(s, t, k);
      WeightPermutation(s, t', k);
    }
    Unique(r, r');
  }

  // ---------------------------------------------------------------- in place

  /** `done` sums up the sorted records `s`: all but its last record are final, and that
      one carries the key of the last record of `s`. */
  ghost predicate Sums(s: seq<Record>, done: seq<Record>) {
    && s != [] && done != []
    && Canonical(done[..|done| - 1])
    && done[|done| - 1].0 == s[|s| - 1].0
    && (forall i :: 0 <= i < |done| - 1 ==> done[i].0 < done[|done| - 1].0)
    && forall k :: Weight(done, k) == Weight(s, k)
  }

  lemma SumsMerge(s: seq<Record>, done: seq<Record>, r: Record)
    requires Sums(s, done) && r.0 == done[|done| - 1].0
    ensures Sums(s + [r], done[|done| - 1 := (r.0, done[|done| - 1].1 + r.1)])
  {
    var n := |done| - 1;
    var done' := done[n := (r.0, done[n].1 + r.1)];
    assert done'[..n] == done[..n];
    forall k ensures Weight(done', k) == Weight(s + [r], k) {
      WeightAppend(s, [r], k);
      WeightOne(r, k);
    }
  }

  lemma SumsNext(s: seq<Record>, done: seq<Record>, r: Record)
    requires Sums(s, done) && r.0 > done[|done| - 1].0
    ensures Sums(s + [r], (if done[|done| - 1].1 == 0 then done[..|done| - 1] else done) + [r])
  {
    var n := |done| - 1;
    var kept := if done[n].1 == 0 then done[..n] else done;
    assert (kept + [r])[..|kept|] == kept;
    assert done == done[..n] + [done[n]];
    forall k ensures Weight(kept + [r], k) == Weight(s + [r], k) {
      WeightAppend(s, [r], k);
      WeightAppend(kept, [r], k);
    }
  }

  lemma SumsDone(s: seq<Record>, done: seq<Record>)
    requires Sums(s, done)
    ensures Consolidates(s, if done[|done| - 1].1 == 0 then done[..|done| - 1] else done)
  {
    var n := |done| - 1;
    assert done == done[..n] + [done[n]];
  }

  /** One record more: it joins the last record or starts a new one, and a finished record
      of weight zero is dropped. */
  function Absorb(done: seq<Record>, r: Record): seq<Record>
    requires done != []
  {
    var last := done[|done| - 1];
    if last.0 == r.0 then done[|done| - 1 := (last.0, last.1 + r.1)]
    else (if last.1 == 0 then done[..|done| - 1] else done) + [r]
  }

  function AbsorbAll(s: seq<Record>): (done: seq<Record>)
    requires s != []
    ensures 1 <= |done| <= |s|
  {
    if |s| == 1 then s else Absorb(AbsorbAll(s[..|s| - 1]), s[|s| - 1])
  }

  lemma {:induction false} AbsorbAllSums(s: seq<Record>)
    requires s != [] && Sorted(s)
    ensures Sums(s, AbsorbAll(s))
  {
    if |s| > 1 {
      var init, r := s[..|s| - 1], s[|s| - 1];
      AbsorbAllSums(init);
      assert s == init + [r];
      AbsorbSums(init, AbsorbAll(init), r);
    }
  }

  lemma AbsorbSums(s: seq<Record>, done: seq<Record>, r: Record)
    requires Sums(s, done) && s[|s| - 1].0 <= r.0
    ensures Sums(s + [r], Absorb(done, r))
  {
    if done[|done| - 1].0 == r.0 {
      SumsMerge(s, done, r);
    } else {
      SumsNext(s, done, r);
    }
  }

  /** What is left of `done` once its last record is final too. */
  function Trim(done: seq<Record>): seq<Record>
    requires done != []
  {
    if done[|done| - 1].1 == 0 then done[..|done| - 1] else done
  }

  function Compacted(s: seq<Record>): seq<Record> {
    if s == [] then [] else Trim(AbsorbAll(s))
  }

  lemma CompactedConsolidates(s: seq<Record>)
    requires Sorted(s)
    ensures Consolidates(s, Compacted(s))
  {
    if s != [] {
      AbsorbAllSums(s);
      SumsDone(s, AbsorbAll(s));
    }
  }

  /** One turn of the loop of `consolidate_slice_inner`: the record at `index` is merged
      into the one at `offset` or swapped in behind it. */
  method AbsorbAt(a: array<Record>, offset: nat, index: nat) returns (offset': nat)
    requires offset < index < a.Length
    modifies a
    ensures offset' <= index && a[..offset' + 1] == Absorb(old(a[..offset + 1]), old(a[index]))
    ensures a[index + 1..] == old(a[index + 1..])
  {
    ghost var done, r := a[..offset + 1], a[index];
    offset' := offset;
    if a[offset].0 == a[index].0 {
      a[offset] := (a[offset].0, a[offset].1 + a[index].1);
      assert a[..offset + 1] == done[offset := (done[offset].0, done[offset].1 + r.1)];
    } else {
      if a[offset].1 != 0 {
        offset' := offset + 1;
      }
      assert a[..offset'] == if done[offset].1 == 0 then done[..offset] else done;
      a[offset'], a[index] := a[index], a[offset'];
      assert a[..offset' + 1] == a[..offset'] + [r];
    }
  }

  /** `consolidate_slice_inner`: compacts a sorted slice in place by swapping and returns
      the length of the consolidated prefix. */
  method ConsolidateSliceInner(a: array<Record>) returns (len: nat)
    modifies a
    ensures len <= a.Length && a[..len] == Compacted(old(a[..]))
    ensures Sorted(old(a[..])) ==> Consolidates(old(a[..]), a[..len])
  {
    ghost var s := a[..];
    if a.Length == 0 {
      CompactedConsolidates(s);
      return 0;
    }
    var offset: nat := 0;
    for index := 1 to a.Length
      invariant offset < index && a[index..] == s[index..]
      invariant a[..offset + 1] == AbsorbAll(s[..index])
    {
      assert s[..index + 1][..index] == s[..index] && a[index] == a[index..][0] == s[index];
      assert a[index + 1..] == a[index..][1..] == s[index + 1..];
      offset := AbsorbAt(a, offset, index);
    }
    assert s[..a.Length] == s;
    if a[offset].1 != 0 {
      offset := offset + 1;
    } else {
      assert a[..offset + 1][..offset] == a[..offset];
    }
    len := offset;
    if Sorted(s) {
      CompactedConsolidates(s);
    }
  }

  /** The same without dropping anything. */
  function Merge(done: seq<Record>, r: Record): seq<Record>
    requires done != []
  {
    var last := done[|done| - 1];
    if last.0 == r.0 then done[|done| - 1 := (last.0, last.1 + r.1)] else done + [r]
  }

  function MergeAll(s: seq<Record>): (done: seq<Record>)
    requires s != []
    ensures 1 <= |done| <= |s|
  {
    if |s| == 1 then s else Merge(MergeAll(s[..|s| - 1]), s[|s| - 1])
  }

  ghost predicate StrictlySorted(s: seq<Record>) {
    forall i, j :: 0 <= i < j < |s| ==> s[i].0 < s[j].0
  }

  lemma {:induction false} MergeAllSorted(s: seq<Record>)
    requires s != [] && Sorted(s)
    ensures StrictlySorted(MergeAll(s)) && MergeAll(s)[|MergeAll(s)| - 1].0 == s[|s| - 1].0
  {
    if |s| > 1 {
      MergeAllSorted(s[..|s| - 1]);
    }
  }

  lemma {:induction false} MergeAllWeight(s: seq<Record>, k: int)
    requires s != []
    ensures Weight(MergeAll(s), k) == Weight(s, k)
  {
    if |s| > 1 {
      var init, r := s[..|s| - 1], s[|s| - 1];
      MergeAllWeight(init, k);
      var done := MergeAll(init);
      if done[|done| - 1].0 == r.0 {
        assert MergeAll(s)[..|done| - 1] == done[..|done| - 1];
      } else {
        WeightAppend(done, [r], k);
        WeightOne(r, k);
      }
    }
  }

  /** The `dedup_by` of `consolidate`: equal keys are merged into their first record. */
  method DedupBy(a: array<Record>) returns (len: nat)
    modifies a
    ensures len <= a.Length && a[..len] == if a.Length == 0 then [] else MergeAll(old(a[..]))
  {
    ghost var s := a[..];
    if a.Length == 0 {
      return 0;
    }
    len := 1;
    assert s[..1] == a[..1];
    for index := 1 to a.Length
      invariant 1 <= len <= index && a[index..] == s[index..]
      invariant a[..len] == MergeAll(s[..index])
    {
      assert s[..index + 1][..index] == s[..index] && a[index] == a[index..][0] == s[index];
      assert a[index + 1..] == a[index..][1..] == s[index + 1..];
      len := MergeAt(a, len, index);
    }
    assert s[..a.Length] == s;
  }

  /** One turn of `dedup_by`: the record at `index` is merged into the last one kept, or
      moved up behind it. */
  method MergeAt(a: array<Record>, len: nat, index: nat) returns (len': nat)
    requires 0 < len <= index < a.Length
    modifies a
    ensures len' <= index + 1 && a[..len'] == Merge(old(a[..len]), old(a[index]))
    ensures a[index + 1..] == old(a[index + 1..])
  {
    ghost var done, r := a[..len], a[index];
    len' := len;
    if a[len - 1].0 == a[index].0 {
      a[len - 1] := (a[len - 1].0, a[len - 1].1 + a[index].1);
      assert a[..len] == done[len - 1 := (done[len - 1].0, done[len - 1].1 + r.1)];
    } else {
      a[len] := a[index];
      len' := len + 1;
      assert a[..len'] == done + [r];
    }
  }

  function NonZero(s: seq<Record>): (r: seq<Record>)
    ensures |r| <= |s|
  {
    if s == [] then []
    else
      var kept, last := NonZero(s[..|s| - 1]), s[|s| - 1];
      if last.1 != 0 then kept + [last] else kept
  }

  lemma {:induction false} NonZeroSorted(s: seq<Record>)
    requires StrictlySorted(s)
    ensures Canonical(NonZero(s))
    ensures s != [] ==> forall i :: 0 <= i < |NonZero(s)| ==> NonZero(s)[i].0 <= s[|s| - 1].0
  {
    if s != [] {
      NonZeroSorted(s[..|s| - 1]);
    }
  }

  lemma {:induction false} NonZeroWeight(s: seq<Record>, k: int)
    ensures Weight(NonZero(s), k) == Weight(s, k)
  {
    if s != [] {
      var init, last := s[..|s| - 1], s[|s| - 1];
      NonZeroWeight(init, k);
      WeightAppend(NonZero(init), [last], k);
      WeightOne(last, k);
    }
  }

  /** `consolidate` after its sort, as a function. */
  function Reduced(s: seq<Record>): seq<Record> {
    if s == [] then [] else NonZero(MergeAll(s))
  }

  lemma ReducedConsolidates(s: seq<Record>)
    requires Sorted(s)
    ensures Consolidates(s, Reduced(s))
  {
    if s != [] {
      MergeAllSorted(s);
      NonZeroSorted(MergeAll(s));
      forall k ensures Weight(Reduced(s), k) == Weight(s, k) {
        MergeAllWeight(s, k);
        NonZeroWeight(MergeAll(s), k);
      }
    }
  }

  /** Whichever way a sort orders equal keys (`t` stably, `t'` not), the vector form and the
      slice form all produce the one consolidated form of `s`. */
  lemma VariantsAgree(s: seq<Record>, t: seq<Record>, t': seq<Record>)
    requires multiset(s) == multiset(t) == multiset(t') && Sorted(t) && Sorted(t')
    ensures Consolidates(s, Reduced(t))
    ensures Reduced(t) == Reduced(t') == Compacted(t) == Compacted(t')
  {
    ReducedConsolidates(t);
    ReducedConsolidates(t');
    CompactedConsolidates(t);
    CompactedConsolidates(t');
    SortsAgree(s, t, t', Reduced(t), Reduced(t'));
    SortsAgree(s, t, t', Reduced(t), Compacted(t'));
    SortsAgree(s, t, t, Reduced(t), Compacted(t));
  }

  /** A second consolidation, its sort included, changes nothing. */
  lemma TwiceIsOnce(s: seq<Record>, t: seq<Record>)
    requires Sorted(s) && Sorted(t) && multiset(t) == multiset(Reduced(s))
    ensures Reduced(t) == Reduced(s)
  {
    ReducedConsolidates(s);
    ReducedConsolidates(t);
    forall k ensures Weight(Reduced(s), k) == Weight(Reduced(t), k) {
      WeightPermutation(Reduced(s), t, k);
    }
    Unique(Reduced(s), Reduced(t));
  }

  /** The `retain` of `consolidate`: records of weight zero are dropped. */
  method RetainNonZero(a: array<Record>, n: nat) returns (len: nat)
    requires n <= a.Length
    modifies a
    ensures len <= n && a[..len] == NonZero(old(a[..n]))
  {
    ghost var s := a[..n];
    len := 0;
    for index := 0 to n
      invariant len <= index && forall i :: index <= i < n ==> a[i] == s[i]
      invariant a[..len] == NonZero(s[..index])
    {
      ghost var done := a[..len];
      assert s[..index + 1][..index] == s[..index];
      if a[index].1 != 0 {
        a[len] := a[index];
        len := len + 1;
        assert a[..len] == done + [s[index]];
      }
    }
    assert s[..n] == s;
  }

  /** `consolidate` after its sort. */
  method ConsolidateSorted(a: array<Record>) returns (len: nat)
    modifies a
    ensures len <= a.Length && a[..len] == Reduced(old(a[..]))
    ensures Sorted(old(a[..])) ==> Consolidates(old(a[..]), a[..len])
  {
    ghost var s := a[..];
    var n := DedupBy(a);
    len := RetainNonZero(a, n);
    assert a[..len] == Reduced(s);
    if Sorted(s) {
      ReducedConsolidates(s);
    }
  }
}
