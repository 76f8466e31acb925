/**
 The collector thread: reads the generators' channels in turn, one item each, and counts
 every failed read until the count reaches the number of channels.
 */
module Collector {
  import opened Basics
  import opened BatchedChannel

  // ---------------------------------------------------------------- what it should do

  /** `out` with what a channel that carries `list` yields in round `r`. */
  function Extend<T>(out: seq<T>, list: seq<T>, r: nat): seq<T> {
    if r < |list| then out + [list[r]] else out
  }

  /** Whether the read fails, as a number. */
  function Miss<T>(list: seq<T>, r: nat): nat {
    if r < |list| then 0 else 1
  }

  /** `out` with what round `r` forwards from the first `i` channels. */
  function Row<T>(out: seq<T>, lists: seq<seq<T>>, r: nat, i: nat): seq<T>
    requires i <= |lists|
  {
    if i == 0 then out else Extend(Row(out, lists, r, i - 1), lists[i - 1], r)
  }

  function RoundRobin<T>(lists: seq<seq<T>>, rounds: nat): seq<T> {
    if rounds == 0 then [] else Row(RoundRobin(lists, rounds - 1), lists, rounds - 1, |lists|)
  }

  /** Failed reads among the first `i` channels in round `r`. */
  function RowFails<T>(lists: seq<seq<T>>, r: nat, i: nat): nat
    requires i <= |lists|
  {
    if i == 0 then 0 else RowFails(lists, r, i - 1) + Miss(lists[i - 1], r)
  }

  function Fails<T>(lists: seq<seq<T>>, rounds: nat): nat {
    if rounds == 0 then 0 else Fails(lists, rounds - 1) + RowFails(lists, rounds - 1, |lists|)
  }

  /** The collector stops after the first round that brings the count to the number of
      channels, although one channel may have been counted more than once. */
  ghost predicate StopsAfter<T>(lists: seq<seq<T>>, rounds: nat) {
    && Fails(lists, rounds) >= |lists|
    && (rounds > 0 ==> Fails(lists, rounds - 1) < |lists|)
  }

  function Longest<T>(lists: seq<seq<T>>, i: nat): (m: nat)
    requires i <= |lists|
    ensures forall k :: 0 <= k < i ==> |lists[k]| <= m
    ensures m > 0 ==> exists k :: 0 <= k < i && |lists[k]| == m
  {
    if i == 0 then 0
    else
      var m := Longest(lists, i - 1);
      if |lists[i - 1]| > m then |lists[i - 1]| else m
  }

  /** By how many items the first `i` lists fall short of length `m`, in total. */
  function Shortfall<T>(lists: seq<seq<T>>, m: nat, i: nat): nat
    requires i <= |lists|
  {
    if i == 0 then 0
    else Shortfall(lists, m, i - 1) + if |lists[i - 1]| < m then m - |lists[i - 1]| else 0
  }

  lemma {:induction false} ShortfallStep<T>(lists: seq<seq<T>>, m: nat, i: nat)
    requires i <= |lists|
    ensures Shortfall(lists, m + 1, i) == Shortfall(lists, m, i) + RowFails(lists, m, i)
  {
    if i > 0 {
      ShortfallStep(lists, m, i - 1);
    }
  }

  lemma {:induction false} NoShortfall<T>(lists: seq<seq<T>>, m: nat, i: nat)
    requires i <= |lists|
    ensures Shortfall(lists, m, i) == 0 <==> forall k :: 0 <= k < i ==> |lists[k]| >= m
  {
    if i > 0 {
      NoShortfall(lists, m, i - 1);
    }
  }

  lemma {:induction false} FailsAreShortfall<T>(lists: seq<seq<T>>, rounds: nat)
    ensures Fails(lists, rounds) == Shortfall(lists, rounds, |lists|)
  {
    if rounds == 0 {
      NoShortfall(lists, 0, |lists|);
    } else {
      FailsAreShortfall(lists, rounds - 1);
      ShortfallStep(lists, rounds - 1, |lists|);
    }
  }

  lemma {:induction false} FailsMonotone<T>(lists: seq<seq<T>>, r: nat, r': nat)
    requires r <= r'
    ensures Fails(lists, r) <= Fails(lists, r')
  {
    if r < r' {
      FailsMonotone(lists, r, r' - 1);
    }
  }

  lemma StopsOnce<T>(lists: seq<seq<T>>, r: nat, r': nat)
    requires StopsAfter(lists, r) && StopsAfter(lists, r')
    ensures r == r'
  {
    if r < r' {
      FailsMonotone(lists, r, r' - 1);
    } else if r' < r {
      FailsMonotone(lists, r', r - 1);
    }
  }

  /** Once all lists are exhausted every read fails. */
  lemma {:induction false} AllFail<T>(lists: seq<seq<T>>, r: nat, i: nat)
    requires i <= |lists| && forall k :: 0 <= k < i ==> |lists[k]| <= r
    ensures RowFails(lists, r, i) == i
  {
    if i > 0 {
      AllFail(lists, r, i - 1);
    }
  }

  // ---------------------------------------------------------------- conservation

  /** Whether `x` is item `r`, as a number. */
  function Is<T(==)>(s: seq<T>, r: nat, x: T): nat {
    if r < |s| && s[r] == x then 1 else 0
  }

  /** How often `x` is among the first `r` items. */
  function Had<T(==)>(s: seq<T>, r: nat, x: T): nat {
    if r == 0 then 0 else Had(s, r - 1, x) + Is(s, r - 1, x)
  }

  function Count<T(==)>(s: seq<T>, x: T): nat {
    Had(s, |s|, x)
  }

  lemma {:induction false} HadPrefix<T>(s: seq<T>, t: seq<T>, r: nat, x: T)
    requires r <= |s| <= |t| && forall k :: 0 <= k < |s| ==> s[k] == t[k]
    ensures Had(s, r, x) == Had(t, r, x)
  {
    if r > 0 {
      HadPrefix(s, t, r - 1, x);
    }
  }

  lemma {:induction false} HadAll<T>(s: seq<T>, r: nat, x: T)
    requires r >= |s|
    ensures Had(s, r, x) == Count(s, x)
  {
    if r > |s| {
      HadAll(s, r - 1, x);
    }
  }

  lemma {:induction false} HadMonotone<T>(s: seq<T>, r: nat, r': nat, x: T)
    requires r <= r'
    ensures Had(s, r, x) <= Had(s, r', x)
  {
    if r < r' {
      HadMonotone(s, r, r' - 1, x);
    }
  }

  lemma CountExtend<T>(s: seq<T>, list: seq<T>, r: nat, x: T)
    ensures Count(Extend(s, list, r), x) == Count(s, x) + Is(list, r, x)
  {
    HadPrefix(s, Extend(s, list, r), |s|, x);
  }

  /** How often `x` is among the first `r` items of the first `i` lists. */
  function Taken<T(==)>(lists: seq<seq<T>>, r: nat, i: nat, x: T): nat
    requires i <= |lists|
  {
    if i == 0 then 0 else Taken(lists, r, i - 1, x) + Had(lists[i - 1], r, x)
  }

  /** How often `x` is among the items of the first `i` lists. */
  function Total<T(==)>(lists: seq<seq<T>>, i: nat, x: T): nat
    requires i <= |lists|
  {
    if i == 0 then 0 else Total(lists, i - 1, x) + Count(lists[i - 1], x)
  }

  /** How often `x` is item `r` of the first `i` lists. */
  function InRow<T(==)>(lists: seq<seq<T>>, r: nat, i: nat, x: T): nat
    requires i <= |lists|
  {
    if i == 0 then 0 else InRow(lists, r, i - 1, x) + Is(lists[i - 1], r, x)
  }

  lemma {:induction false} TakenStep<T>(lists: seq<seq<T>>, r: nat, i: nat, x: T)
    requires i <= |lists|
    ensures Taken(lists, r + 1, i, x) == Taken(lists, r, i, x) + InRow(lists, r, i, x)
  {
    if i > 0 {
      TakenStep(lists, r, i - 1, x);
    }
  }

  lemma {:induction false} TakenNone<T>(lists: seq<seq<T>>, i: nat, x: T)
    requires i <= |lists|
    ensures Taken(lists, 0, i, x) == 0
  {
    if i > 0 {
      TakenNone(lists, i - 1, x);
    }
  }

  lemma {:induction false} RowCounts<T>(out: seq<T>, lists: seq<seq<T>>, r: nat, i: nat, x: T)
    requires i <= |lists|
    ensures Count(Row(out, lists, r, i), x) == Count(out, x) + InRow(lists, r, i, x)
  {
    if i > 0 {
      RowCounts(out, lists, r, i - 1, x);
      CountExtend(Row(out, lists, r, i - 1), lists[i - 1], r, x);
    }
  }

  lemma {:induction false} RoundRobinTakes<T>(lists: seq<seq<T>>, rounds: nat, i: nat, x: T)
    requires i == |lists|
    ensures Count(RoundRobin(lists, rounds), x) == Taken(lists, rounds, i, x)
  {
    if rounds == 0 {
      TakenNone(lists, i, x);
    } else {
      var r := rounds - 1;
      RoundRobinTakes(lists, r, i, x);
      RowCounts(RoundRobin(lists, r), lists, r, i, x);
      TakenStep(lists, r, i, x);
    }
  }

  lemma {:induction false} TakenAtMost<T>(lists: seq<seq<T>>, r: nat, i: nat, x: T)
    requires i <= |lists|
    ensures Taken(lists, r, i, x) <= Total(lists, i, x)
    ensures (forall k :: 0 <= k < i ==> |lists[k]| <= r) ==> Taken(lists, r, i, x) == Total(lists, i, x)
    ensures (exists k :: 0 <= k < i && r < |lists[k]| && lists[k][r] == x) ==>
        Taken(lists, r, i, x) < Total(lists, i, x)
  {
    if i > 0 {
      var s := lists[i - 1];
      TakenAtMost(lists, r, i - 1, x);
      if |s| <= r {
        HadAll(s, r, x);
      } else {
        HadMonotone(s, r + 1, |s|, x);
      }
    }
  }

  /** Everything in the lists is in `out`, as often as there. */
  ghost predicate Complete<T(!new)>(lists: seq<seq<T>>, out: seq<T>) {
    forall x :: Count(out, x) == Total(lists, |lists|, x)
  }

  lemma CompleteExactly<T(!new)>(lists: seq<seq<T>>, rounds: nat)
    ensures Complete(lists, RoundRobin(lists, rounds)) <==> Longest(lists, |lists|) <= rounds
  {
    if Longest(lists, |lists|) <= rounds {
      forall x ensures Count(RoundRobin(lists, rounds), x) == Total(lists, |lists|, x) {
        RoundRobinTakes(lists, rounds, |lists|, x);
        TakenAtMost(lists, rounds, |lists|, x);
      }
    } else {
      var k :| 0 <= k < |lists| && |lists[k]| == Longest(lists, |lists|);
      var x := lists[k][rounds];
      RoundRobinTakes(lists, rounds, |lists|, x);
      TakenAtMost(lists, rounds, |lists|, x);
      assert Count(RoundRobin(lists, rounds), x) != Total(lists, |lists|, x);
    }
  }

  /** The collector loses no event exactly when the lists together fall short of the longest
      one less one by fewer items than there are channels. */
  lemma LosesNothingExactly<T(!new)>(lists: seq<seq<T>>, rounds: nat)
    requires StopsAfter(lists, rounds)
    ensures Complete(lists, RoundRobin(lists, rounds)) <==>
            var m := Longest(lists, |lists|); m == 0 || Shortfall(lists, m - 1, |lists|) < |lists|
  {
    var m := Longest(lists, |lists|);
    CompleteExactly(lists, rounds);
    if m > 0 {
      FailsAreShortfall(lists, m - 1);
      if m <= rounds {
        FailsMonotone(lists, m - 1, rounds - 1);
      } else {
        FailsMonotone(lists, rounds, m - 1);
      }
    }
  }

  /** Lists whose lengths differ by at most one lose nothing. */
  lemma EvenListsLoseNothing<T(!new)>(lists: seq<seq<T>>, rounds: nat)
    requires StopsAfter(lists, rounds)
    requires forall i, j :: 0 <= i < |lists| && 0 <= j < |lists| ==> |lists[i]| <= |lists[j]| + 1
    ensures Complete(lists, RoundRobin(lists, rounds)) && Longest(lists, |lists|) <= rounds
  {
    var m := Longest(lists, |lists|);
    if m > 0 {
      NoShortfall(lists, m - 1, |lists|);
    }
    LosesNothingExactly(lists, rounds);
    CompleteExactly(lists, rounds);
  }

  // ---------------------------------------------------------------- the loop

  ghost predicate Distinct<T>(rxs: seq<BatchedReceiver<T>>) {
    rxs == [] || (rxs[0] !in rxs[1..] && Distinct(rxs[1..]))
  }

  lemma {:induction false} DistinctAt<T>(rxs: seq<BatchedReceiver<T>>, i: nat, j: nat)
    requires Distinct(rxs) && i < j < |rxs|
    ensures rxs[i] != rxs[j]
  {
    if i == 0 {
      assert rxs[j] == rxs[1..][j - 1];
    } else {
      DistinctAt(rxs[1..], i - 1, j - 1);
    }
  }

  lemma {:induction false} DistinctSnoc<T>(rxs: seq<BatchedReceiver<T>>, rx: BatchedReceiver<T>)
    requires Distinct(rxs) && rx !in rxs
    ensures Distinct(rxs + [rx])
  {
    if rxs != [] {
      DistinctSnoc(rxs[1..], rx);
      assert (rxs + [rx])[1..] == rxs[1..] + [rx];
    }
  }

  /** `s` is what follows the first `r` items of `list`. */
  ghost predicate Follows<T>(s: seq<T>, list: seq<T>, r: nat) {
    if r < |list| then |s| == |list| - r && forall j :: 0 <= j < |s| ==> s[j] == list[r + j] else s == []
  }

  /** What a receiver holds: the rest of its batch and the batches to come. */
  datatype View<T> = View(queue: seq<T>, batches: seq<seq<T>>)

  /** The receiver of a channel that carries `list` stands at item `r`.  The first batch is
      empty if `stuck`, and then the receiver never gets past it. */
  ghost predicate At<T>(v: View<T>, list: seq<T>, stuck: bool, r: nat) {
    && Follows(Prepend(v.queue, Flatten(v.batches)), list, r)
    && (r == 0 ==> v.queue == [] && v.batches != [] && (stuck <==> v.batches[0] == []))
    && (r > 0 ==> !stuck)
    && (!stuck ==> Clean(v.batches))
  }

  /** A channel starts with an empty batch when nothing was sent or batches have size zero. */
  ghost predicate Stuck<T>(list: seq<T>, size: nat) {
    size == 0 || list == []
  }

  lemma AtFirst<T>(list: seq<T>, size: nat)
    ensures At(View([], Batches(list, size)), list, Stuck(list, size), 0)
  {
    BatchesFlatten(list, size);
    BatchesClean(list, size);
  }

  ghost function ViewOf<T>(rx: BatchedReceiver<T>): View<T>
    reads rx
  {
    View(rx.currentQueue, rx.rx)
  }

  ghost function Views<T>(rxs: seq<BatchedReceiver<T>>): (vs: seq<View<T>>)
    reads rxs
    ensures |vs| == |rxs|
  {
    seq(|rxs|, k requires 0 <= k < |rxs| reads rxs => ViewOf(rxs[k]))
  }

  /** Reading from a receiver at `r` gives item `r` or fails, and moves on. */
  method RecvAt<T>(rx: BatchedReceiver<T>, ghost list: seq<T>, ghost stuck: bool, ghost r: nat)
    returns (e: Received<T>)
    requires At(ViewOf(rx), list, stuck, r)
    modifies rx
    ensures e.Panicked? <==> stuck
    ensures !stuck ==> At(ViewOf(rx), list, stuck, r + 1)
    ensures !stuck ==> e == if r < |list| then Item(list[r]) else Disconnected
  {
    assert Clean(rx.rx) && rx.rx != [] ==> rx.Pending() != [];
    ghost var before := rx.Pending();
    e := rx.Recv();
    if e.Item? {
      assert before[0] == list[r];
      forall j | 0 <= j < |rx.Pending()|
        ensures rx.Pending()[j] == list[r + 1 + j]
      {
        assert rx.Pending()[j] == before[j + 1];
      }
    }
  }

  /** One turn of the inner loop: an item is forwarded, or the failed read is counted. */
  method Forward<T>(rx: BatchedReceiver<T>, out: seq<T>, completed: nat,
                    ghost list: seq<T>, ghost stuck: bool, ghost r: nat)
    returns (panicked: bool, out': seq<T>, completed': nat)
    requires At(ViewOf(rx), list, stuck, r)
    modifies rx
    ensures panicked == stuck
    ensures !stuck ==> At(ViewOf(rx), list, stuck, r + 1)
    ensures !stuck ==> out' == Extend(out, list, r) && completed' == completed + Miss(list, r)
  {
    var e := RecvAt(rx, list, stuck, r);
    panicked, out', completed' := false, out, completed;
    match e {
      case Item(value) =>
        out' := out + [value];
      case Disconnected =>
        completed' := completed + 1;
      case Panicked =>
        panicked := true;
    }
  }

  /** The first `i` receivers have been read in round `r`, the others not yet. */
  ghost predicate Midway<T>(vs: seq<View<T>>, lists: seq<seq<T>>, size: nat, r: nat, i: nat) {
    |vs| == |lists| && forall k :: 0 <= k < |vs| ==>
        At(vs[k], lists[k], Stuck(lists[k], size), if k < i then r + 1 else r)
  }

  lemma MidwayNext<T>(vs: seq<View<T>>, lists: seq<seq<T>>, size: nat, r: nat, i: nat, v: View<T>)
    requires Midway(vs, lists, size, r, i) && i < |vs| && At(v, lists[i], Stuck(lists[i], size), r + 1)
    ensures Midway(vs[i := v], lists, size, r, i + 1)
  {
    forall k | 0 <= k < |vs|
      ensures At(vs[i := v][k], lists[k], Stuck(lists[k], size), if k < i + 1 then r + 1 else r)
    {
      if k != i {
        assert At(vs[k], lists[k], Stuck(lists[k], size), if k < i then r + 1 else r);
      }
    }
  }

  /** One of the first `i` channels starts with an empty batch. */
  ghost predicate AnyStuck<T>(lists: seq<seq<T>>, size: nat, i: nat)
    requires i <= |lists|
  {
    exists k :: 0 <= k < i && Stuck(lists[k], size)
  }

  method Turn<T>(rxs: seq<BatchedReceiver<T>>, i: nat, out: seq<T>, completed: nat,
                 ghost lists: seq<seq<T>>, ghost size: nat, ghost r: nat)
    returns (panicked: bool, out': seq<T>, completed': nat)
    requires Distinct(rxs) && i < |rxs| && Midway(Views(rxs), lists, size, r, i)
    modifies rxs
    ensures panicked == Stuck(lists[i], size)
    ensures !panicked ==> Midway(Views(rxs), lists, size, r, i + 1)
    ensures !panicked ==> out' == Extend(out, lists[i], r) && completed' == completed + Miss(lists[i], r)
  {
    assert Views(rxs)[i] == ViewOf(rxs[i]);
    panicked, out', completed' := Forward(rxs[i], out, completed, lists[i], Stuck(lists[i], size), r);
    if !panicked {
      MidwayNext(old(Views(rxs)), lists, size, r, i, ViewOf(rxs[i]));
      forall k | 0 <= k < |rxs| && k != i ensures rxs[k] != rxs[i] {
        DistinctAt(rxs, Min(k, i), if k < i then i else k);
      }
      assert Views(rxs) == old(Views(rxs))[i := ViewOf(rxs[i])];
    }
  }

  /** The inner loop: one round over all receivers. */
  method Round<T>(rxs: seq<BatchedReceiver<T>>, out: seq<T>, completed: nat,
                  ghost lists: seq<seq<T>>, ghost size: nat, ghost r: nat)
    returns (panicked: bool, out': seq<T>, completed': nat)
    requires Distinct(rxs) && Midway(Views(rxs), lists, size, r, 0)
    modifies rxs
    ensures panicked == AnyStuck(lists, size, |rxs|)
    ensures !panicked ==> Midway(Views(rxs), lists, size, r, |rxs|)
    ensures !panicked ==> out' == Row(out, lists, r, |rxs|) && completed' == completed + RowFails(lists, r, |rxs|)
  {
    panicked, out', completed' := false, out, completed;
    var i := 0;
    while i < |rxs| && !panicked
      invariant 0 <= i <= |rxs| && panicked == AnyStuck(lists, size, i)
      invariant !panicked ==> out' == Row(out, lists, r, i) && completed' == completed + RowFails(lists, r, i)
      invariant !panicked ==> Midway(Views(rxs), lists, size, r, i)
    {
      panicked, out', completed' := Turn(rxs, i, out', completed', lists, size, r);
      i := i + 1;
    }
  }

  lemma NextRound<T>(vs: seq<View<T>>, lists: seq<seq<T>>, size: nat, r: nat)
    requires Midway(vs, lists, size, r, |vs|)
    ensures Midway(vs, lists, size, r + 1, 0)
  {
  }

  /** The count grows in every round that finds all lists exhausted. */
  lemma FailsGrow<T>(lists: seq<seq<T>>, r: nat)
    requires Longest(lists, |lists|) <= r
    ensures Fails(lists, r + 1) == Fails(lists, r) + |lists|
  {
    AllFail(lists, r, |lists|);
  }

  /** `rounds` whole rounds have been forwarded. */
  ghost predicate Forwarded<T>(lists: seq<seq<T>>, rounds: nat, out: seq<T>, completed: nat) {
    out == RoundRobin(lists, rounds) && completed == Fails(lists, rounds)
  }

  method WholeRound<T>(rxs: seq<BatchedReceiver<T>>, out: seq<T>, completed: nat,
                       ghost lists: seq<seq<T>>, ghost size: nat, ghost r: nat)
    returns (panicked: bool, out': seq<T>, completed': nat)
    requires Distinct(rxs) && Midway(Views(rxs), lists, size, r, 0) && Forwarded(lists, r, out, completed)
    modifies rxs
    ensures panicked == AnyStuck(lists, size, |lists|)
    ensures !panicked ==> Midway(Views(rxs), lists, size, r + 1, 0) && Forwarded(lists, r + 1, out', completed')
    ensures !panicked && Longest(lists, |lists|) <= r ==> completed' >= |lists|
  {
    panicked, out', completed' := Round(rxs, out, completed, lists, size, r);
    if !panicked {
      NextRound(Views(rxs), lists, size, r);
      if Longest(lists, |lists|) <= r {
        FailsGrow(lists, r);
      }
    }
  }

  /** The collector.  It panics exactly when some generator had nothing to send or batches
      have size zero; otherwise it forwards whole rounds until the count is reached.  What it
      forwards goes through a sender of its own, in the same order. */
  method Collect<T>(rxs: seq<BatchedReceiver<T>>, ghost lists: seq<seq<T>>, ghost size: nat)
    returns (panicked: bool, out: seq<T>, ghost rounds: nat)
    requires Distinct(rxs) && Midway(Views(rxs), lists, size, 0, 0)
    modifies rxs
    ensures panicked == AnyStuck(lists, size, |lists|)
    ensures !panicked ==> StopsAfter(lists, rounds) && out == RoundRobin(lists, rounds)
    ensures !panicked ==> forall r :: StopsAfter(lists, r) ==> r == rounds
  {
    panicked, out, rounds := Rounds(rxs, lists, size, 0);
    if !panicked {
      forall r | StopsAfter(lists, r) ensures r == rounds {
        StopsOnce(lists, r, rounds);
      }
    }
  }

  /** The outer loop, from `first`, which is 0. */
  method Rounds<T>(rxs: seq<BatchedReceiver<T>>, ghost lists: seq<seq<T>>, ghost size: nat, ghost first: nat)
    returns (panicked: bool, out: seq<T>, ghost rounds: nat)
    requires Distinct(rxs) && Midway(Views(rxs), lists, size, first, 0) && first == 0
    modifies rxs
    ensures panicked == AnyStuck(lists, size, |lists|)
    ensures !panicked ==> StopsAfter(lists, rounds) && out == RoundRobin(lists, rounds)
  {
    var completed: nat := 0;
    panicked, out, rounds := false, [], first;
    ghost var m := Longest(lists, |lists|);
    while completed < |rxs| && !panicked
      invariant |rxs| == |lists| && (rounds > 0 || panicked ==> panicked == AnyStuck(lists, size, |lists|))
      invariant !panicked ==> Forwarded(lists, rounds, out, completed) && Midway(Views(rxs), lists, size, rounds, 0)
      invariant !panicked && rounds > 0 ==> Fails(lists, rounds - 1) < |lists|
      invariant !panicked && rounds > m ==> completed >= |lists|
      decreases !panicked, m + 1 - rounds
    {
      panicked, out, completed := WholeRound(rxs, out, completed, lists, size, rounds);
      rounds := if panicked then rounds else rounds + 1;
    }
  }
}
