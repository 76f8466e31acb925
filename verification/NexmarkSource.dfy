/** The generators' shares of the events, and the whole source. */
module NexmarkSource {
  import opened Basics
  import opened BatchedChannel
  import opened Collector

  /** The id of event number `e` when events are reordered within groups of `g`; the group
      of `e` starts at `e / g * g`, which is `e - e % g`. */
  function Adjusted(e: nat, g: nat): (id: nat)
    requires g > 0
    ensures e - e % g <= id < e - e % g + g
  {
    e - e % g + e * 953 % g
  }

  /** The ids of a generator whose next event number is `next`, with `n` generators in turn.
      It stops at its first id that is out of range. */
  function Ids(next: nat, n: nat, maxEvents: nat, g: nat): seq<nat>
    requires n > 0 && g > 0
    decreases if next < maxEvents + g then maxEvents + g - next else 0
  {
    if Adjusted(next, g) >= maxEvents then [] else [Adjusted(next, g)] + Ids(next + n, n, maxEvents, g)
  }

  function Shares(n: nat, maxEvents: nat, g: nat): seq<seq<nat>>
    requires n > 0 && g > 0
  {
    seq(n, i requires 0 <= i => Ids(i, n, maxEvents, g))
  }

  /** The ids of the first `k` event numbers, in the order of the numbers. */
  function InOrder(k: nat, g: nat): seq<nat>
    requires g > 0
  {
    seq(k, e requires 0 <= e => Adjusted(e, g))
  }

  // ---------------------------------------------------------------- whole groups

  lemma Times(a: nat, b: nat, g: nat)
    requires a <= b
    ensures a * g <= b * g
  {
  }

  /** If the maximum is a number of whole groups, an id is in range exactly when its event
      number is. */
  lemma WholeGroups(e: nat, maxEvents: nat, g: nat)
    requires g > 0 && maxEvents % g == 0
    ensures Adjusted(e, g) < maxEvents <==> e < maxEvents
  {
    var q, k := e / g, maxEvents / g;
    assert maxEvents == k * g && e - e % g == q * g;
    if q < k {
      Times(q + 1, k, g);
      assert (q + 1) * g == q * g + g;
    } else {
      Times(k, q, g);
    }
  }

  /** Then a generator has an event `r` exactly when its number is in range. */
  lemma {:induction false} IdsAt(next: nat, n: nat, maxEvents: nat, g: nat, r: nat)
    requires n > 0 && g > 0 && maxEvents % g == 0
    ensures r < |Ids(next, n, maxEvents, g)| <==> next + r * n < maxEvents
    ensures r < |Ids(next, n, maxEvents, g)| ==> Ids(next, n, maxEvents, g)[r] == Adjusted(next + r * n, g)
    decreases r
  {
    WholeGroups(next, maxEvents, g);
    if r > 0 {
      assert r * n == (r - 1) * n + n;
      if next < maxEvents {
        IdsAt(next + n, n, maxEvents, g, r - 1);
      }
    }
  }

  /** The part of round `r` that the first `i` generators contribute extends the ids sent
      so far by the next ones. */
  lemma {:induction false} RowInOrder(n: nat, maxEvents: nat, g: nat, r: nat, i: nat)
    requires n > 0 && g > 0 && maxEvents % g == 0 && i <= n
    ensures Row(InOrder(Min(r * n, maxEvents), g), Shares(n, maxEvents, g), r, i)
            == InOrder(Min(r * n + i, maxEvents), g)
  {
    if i > 0 {
      RowInOrder(n, maxEvents, g, r, i - 1);
      IdsAt(i - 1, n, maxEvents, g, r);
      assert Shares(n, maxEvents, g)[i - 1] == Ids(i - 1, n, maxEvents, g);
      var k := r * n + i - 1;
      if k < maxEvents {
        assert InOrder(k, g) + [Adjusted(k, g)] == InOrder(k + 1, g);
      }
    }
  }

  lemma {:induction false} RoundsInOrder(n: nat, maxEvents: nat, g: nat, rounds: nat)
    requires n > 0 && g > 0 && maxEvents % g == 0
    ensures RoundRobin(Shares(n, maxEvents, g), rounds) == InOrder(Min(rounds * n, maxEvents), g)
  {
    if rounds > 0 {
      RoundsInOrder(n, maxEvents, g, rounds - 1);
      RowInOrder(n, maxEvents, g, rounds - 1, n);
      assert rounds * n == (rounds - 1) * n + n;
    }
  }

  /** With whole groups, the shares differ in length by at most one. */
  lemma SharesEven(n: nat, maxEvents: nat, g: nat, i: nat, j: nat)
    requires n > 0 && g > 0 && maxEvents % g == 0 && i < n && j < n
    ensures |Shares(n, maxEvents, g)[i]| <= |Shares(n, maxEvents, g)[j]| + 1
  {
    var b := |Ids(j, n, maxEvents, g)|;
    assert (b + 1) * n == b * n + n;
    IdsAt(i, n, maxEvents, g, b + 1);
    IdsAt(j, n, maxEvents, g, b);
  }

  /** With whole groups, the collector stops when every event number in range has been
      forwarded, in order. */
  lemma CollectedInOrder(n: nat, maxEvents: nat, g: nat, rounds: nat)
    requires n > 0 && g > 0 && maxEvents % g == 0 && StopsAfter(Shares(n, maxEvents, g), rounds)
    ensures RoundRobin(Shares(n, maxEvents, g), rounds) == InOrder(maxEvents, g)
  {
    var lists := Shares(n, maxEvents, g);
    forall i, j | 0 <= i < n && 0 <= j < n
      ensures |lists[i]| <= |lists[j]| + 1
    {
      SharesEven(n, maxEvents, g, i, j);
    }
    EvenListsLoseNothing(lists, rounds);
    RoundsInOrder(n, maxEvents, g, rounds);
    IdsAt(0, n, maxEvents, g, rounds);
    assert |lists[0]| <= rounds;
  }

  // ---------------------------------------------------------------- broken groups

  /** Nine events in groups of ten: the first ten numbers get the ids 0, 3, 6, 9, 2, 5, 8, 1,
      4, 7, and two generators share them.  The one with the even numbers never meets the id
      9, the other one meets it right after its first event. */
  ghost predicate Broken(n: nat, maxEvents: nat, g: nat) {
    n == 2 && maxEvents == 9 && g == 10
  }

  lemma EvenId(k: nat, e: nat, g: nat)
    requires g == 10 && k <= 5 && e == k + k
    ensures k < 5 ==> Adjusted(e, g) < 9
    ensures k == 5 ==> Adjusted(e, g) >= 9
  {
    assert e * 953 % 10 ==
           if k == 0 || k == 5 then 0 else if k == 1 then 6 else if k == 2 then 2 else if k == 3 then 8 else 4;
  }

  lemma {:induction false} EvenNumbers(k: nat, e: nat, n: nat, maxEvents: nat, g: nat)
    requires Broken(n, maxEvents, g) && k <= 5 && e == k + k
    ensures |Ids(e, n, maxEvents, g)| == 5 - k
    decreases 5 - k
  {
    EvenId(k, e, g);
    if k < 5 {
      EvenNumbers(k + 1, e + n, n, maxEvents, g);
    }
  }

  lemma OddId(e: nat, g: nat)
    requires g == 10
    ensures e == 1 ==> Adjusted(e, g) == 3
    ensures e == 3 ==> Adjusted(e, g) == 9
  {
  }

  lemma OddNumbers(e: nat, n: nat, maxEvents: nat, g: nat)
    requires Broken(n, maxEvents, g) && e == 1
    ensures |Ids(e, n, maxEvents, g)| == 1
  {
    OddId(e, g);
    OddId(e + n, g);
  }

  /** So the first generator produces five events, the second only one, and the collector
      stops before it has read the last two of the first. */
  lemma BrokenGroupLoses(n: nat, maxEvents: nat, g: nat, three: nat)
    requires Broken(n, maxEvents, g) && three == 3
    ensures |Shares(n, maxEvents, g)[0]| == 5 && |Shares(n, maxEvents, g)[1]| == 1
    ensures StopsAfter(Shares(n, maxEvents, g), three)
    ensures !Complete(Shares(n, maxEvents, g), RoundRobin(Shares(n, maxEvents, g), three))
  {
    EvenNumbers(0, 0, n, maxEvents, g);
    OddNumbers(1, n, maxEvents, g);
    FiveAndOne(Shares(n, maxEvents, g), three);
  }

  lemma FiveAndOne(lists: seq<seq<nat>>, three: nat)
    requires |lists| == 2 && |lists[0]| == 5 && |lists[1]| == 1 && three == 3
    ensures StopsAfter(lists, three) && !Complete(lists, RoundRobin(lists, three))
  {
    var two := |lists|;
    ShortfallOfTwo(lists, three - 1, two);
    ShortfallOfTwo(lists, three, two);
    ShortfallOfTwo(lists, three + 1, two);
    FailsAreShortfall(lists, three);
    FailsAreShortfall(lists, three - 1);
    LosesNothingExactly(lists, three);
  }

  function Short<T>(list: seq<T>, m: nat): nat {
    if |list| < m then m - |list| else 0
  }

  lemma ShortfallOfTwo(lists: seq<seq<nat>>, m: nat, two: nat)
    requires |lists| == 2 == two
    ensures Shortfall(lists, m, two) == Short(lists[0], m) + Short(lists[1], m)
  {
    assert Shortfall(lists, m, two - 1 - 1) == 0;
    assert Shortfall(lists, m, two - 1) == Short(lists[0], m);
  }

  // ---------------------------------------------------------------- the source

  /** Some channel starts with an empty batch exactly when the first event of some generator
      is out of range or batches have size zero. */
  lemma SharesStuck(n: nat, maxEvents: nat, g: nat, size: nat)
    requires n > 0 && g > 0
    ensures AnyStuck(Shares(n, maxEvents, g), size, n) <==> size == 0 || FirstOutOfRange(n, maxEvents, g)
  {
    forall i | 0 <= i < n
      ensures Stuck(Shares(n, maxEvents, g)[i], size) <==> size == 0 || Adjusted(i, g) >= maxEvents
    {
      assert Shares(n, maxEvents, g)[i] == Ids(i, n, maxEvents, g);
    }
    if size == 0 {
      assert Stuck(Shares(n, maxEvents, g)[0], size);
    }
    if i: nat :| i < n && Adjusted(i, g) >= maxEvents {
      assert Stuck(Shares(n, maxEvents, g)[i], size);
    }
  }

  ghost predicate FirstOutOfRange(n: nat, maxEvents: nat, g: nat)
    requires g > 0
  {
    exists i: nat :: i < n && Adjusted(i, g) >= maxEvents
  }

  /** With whole groups that means fewer events than generators. */
  lemma FewEvents(n: nat, maxEvents: nat, g: nat)
    requires g > 0 && maxEvents % g == 0
    ensures FirstOutOfRange(n, maxEvents, g) <==> maxEvents < n
  {
    if i: nat :| i < n && Adjusted(i, g) >= maxEvents {
      WholeGroups(i, maxEvents, g);
    }
    if maxEvents < n {
      WholeGroups(maxEvents, maxEvents, g);
    }
  }

  /** The collector forwards something if the first channel has something. */
  lemma SomethingCollected(lists: seq<seq<nat>>, rounds: nat)
    requires lists != [] && lists[0] != [] && StopsAfter(lists, rounds)
    ensures RoundRobin(lists, rounds) != []
  {
    var x, n := lists[0][0], |lists|;
    RoundRobinTakes(lists, rounds, n, x);
    HadMonotone(lists[0], 1, rounds, x);
    TakenGrows(lists, rounds, n, x);
  }

  lemma {:induction false} TakenGrows(lists: seq<seq<nat>>, r: nat, i: nat, x: nat)
    requires 0 < i <= |lists|
    ensures Taken(lists, r, i, x) >= Had(lists[0], r, x)
  {
    if i > 1 {
      TakenGrows(lists, r, i - 1, x);
    }
  }

  /** The lists together fall short of the longest one less one by fewer items than there
      are lists. */
  predicate NearlyEven(lists: seq<seq<nat>>) {
    var m := Longest(lists, |lists|);
    m == 0 || Shortfall(lists, m - 1, |lists|) < |lists|
  }

  /** The whole source: generators, collector and consumer.  A receiver panics exactly when
      there is no generator, batches have size zero or a generator has nothing to send.
      Otherwise the consumer sees every generated event exactly when the shares are nearly
      even, and with whole groups it sees every event number in order. */
  method Source(n: nat, maxEvents: nat, g: nat, size: nat) returns (events: seq<nat>, panicked: bool)
    requires g > 0
    ensures panicked <==> n == 0 || size == 0 || FirstOutOfRange(n, maxEvents, g)
    ensures !panicked ==> (Complete(Shares(n, maxEvents, g), events) <==> NearlyEven(Shares(n, maxEvents, g)))
    ensures maxEvents % g == 0 ==> (panicked <==> n == 0 || size == 0 || maxEvents < n)
    ensures !panicked && maxEvents % g == 0 ==> events == InOrder(maxEvents, g)
  {
    events := [];
    if maxEvents % g == 0 {
      FewEvents(n, maxEvents, g);
    }
    if n == 0 {
      events, panicked := Through([], size);
      return;
    }
    ghost var lists := Shares(n, maxEvents, g);
    var rxs := Generators(n, maxEvents, g, size);
    SharesStuck(n, maxEvents, g, size);
    var out;
    ghost var rounds;
    panicked, out, rounds := Collect(rxs, lists, size);
    if !panicked {
      CollectedShares(n, maxEvents, g, size, rounds);
      events, panicked := Through(out, size);
    }
  }

  /** What the collector has forwarded when it stops. */
  lemma CollectedShares(n: nat, maxEvents: nat, g: nat, size: nat, rounds: nat)
    requires n > 0 && g > 0 && StopsAfter(Shares(n, maxEvents, g), rounds)
    requires !AnyStuck(Shares(n, maxEvents, g), size, n)
    ensures var lists := Shares(n, maxEvents, g);
            var out := RoundRobin(lists, rounds);
            && out != [] && (Complete(lists, out) <==> NearlyEven(lists))
            && (maxEvents % g == 0 ==> out == InOrder(maxEvents, g))
  {
    var lists := Shares(n, maxEvents, g);
    assert !Stuck(lists[0], size);
    SomethingCollected(lists, rounds);
    LosesNothingExactly(lists, rounds);
    if maxEvents % g == 0 {
      CollectedInOrder(n, maxEvents, g, rounds);
    }
  }

  /** The generator threads and their channels. */
  method Generators(n: nat, maxEvents: nat, g: nat, size: nat) returns (rxs: seq<BatchedReceiver<nat>>)
    requires n > 0 && g > 0
    ensures Distinct(rxs) && Midway(Views(rxs), Shares(n, maxEvents, g), size, 0, 0) && fresh(rxs)
  {
    rxs := [];
    for i := 0 to n
      invariant |rxs| == i && Distinct(rxs) && fresh(rxs)
      invariant forall k :: 0 <= k < i ==> ViewOf(rxs[k]) == View([], Batches(Ids(k, n, maxEvents, g), size))
    {
      var tx := new BatchedSender<nat>(size);
      SendAll(tx, Ids(i, n, maxEvents, g));
      var rx := new BatchedReceiver<nat>(tx.sent);
      DistinctSnoc(rxs, rx);
      rxs := rxs + [rx];
    }
    forall k | 0 <= k < n
      ensures At(Views(rxs)[k], Shares(n, maxEvents, g)[k], Stuck(Shares(n, maxEvents, g)[k], size), 0)
    {
      AtFirst(Ids(k, n, maxEvents, g), size);
    }
  }

  /** A reader that drains a channel gets exactly what was sent, unless the first batch is
      empty. */
  method Drain(rx: BatchedReceiver<nat>, ghost events: seq<nat>, ghost size: nat)
    returns (got: seq<nat>, panicked: bool)
    requires At(ViewOf(rx), events, Stuck(events, size), 0)
    modifies rx
    ensures panicked == Stuck(events, size)
    ensures got == if panicked then [] else events
  {
    got := [];
    var e := RecvAt(rx, events, Stuck(events, size), 0);
    while e.Item?
      invariant e.Panicked? == Stuck(events, size)
      invariant |got| <= |events| && got == events[..|got|]
      invariant e.Panicked? ==> got == []
      invariant !e.Panicked? ==> At(ViewOf(rx), events, Stuck(events, size), |got| + 1)
      invariant !e.Panicked? ==> e == if |got| < |events| then Item(events[|got|]) else Disconnected
      decreases |events| - |got|
    {
      got := got + [e.value];
      e := RecvAt(rx, events, Stuck(events, size), |got|);
    }
    panicked := e.Panicked?;
  }

  /** Items sent through one batched channel and read at its other end. */
  method Through(items: seq<nat>, size: nat) returns (got: seq<nat>, panicked: bool)
    ensures panicked <==> size == 0 || items == []
    ensures got == if panicked then [] else items
  {
    var tx := new BatchedSender<nat>(size);
    SendAll(tx, items);
    var rx := new BatchedReceiver<nat>(tx.sent);
    AtFirst(items, size);
    got, panicked := Drain(rx, items, size);
  }
}
