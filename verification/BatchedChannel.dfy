/**
 The batched channels of the Nexmark source: single items go in and out, batches travel in
 between.  A channel delivers batches in order; how long a sender or a receiver waits does
 not matter here, so `rx` holds all the batches that will ever arrive.
 */
module BatchedChannel {
  import opened Basics

  /** The batches a sender produces for the items `s`.  A batch size of zero lets one empty
      batch through and then never fills up. */
  function Batches<T>(s: seq<T>, size: nat): seq<seq<T>>
    decreases |s|
  {
    if size == 0 then (if s == [] then [[]] else [[], s])
    else if |s| <= size then [s]
    else [s[..size]] + Batches(s[size..], size)
  }

  lemma {:induction false} BatchesFlatten<T>(s: seq<T>, size: nat)
    ensures Flatten(Batches(s, size)) == s
    decreases |s|
  {
    if size == 0 {
      FlattenEmptyFirst(s);
      FlattenOne(s);
    } else if |s| <= size {
      FlattenOne(s);
    } else {
      var front, rest := s[..size], s[size..];
      FlattenCons(front, Batches(rest, size));
      BatchesFlatten(rest, size);
      assert front + rest == s;
    }
  }

  lemma FlattenEmptyFirst<T>(s: seq<T>)
    ensures Flatten([[], s]) == s
  {
    assert [[], s][1..] == [s];
    FlattenOne(s);
  }

  /** All batches but the last are full, and the last is not too long. */
  lemma {:induction false} BatchesFull<T>(s: seq<T>, size: nat)
    requires size > 0
    ensures Batches(s, size) != []
    ensures var b := Batches(s, size);
            && (forall i :: 0 <= i < |b| - 1 ==> |b[i]| == size)
            && |b[|b| - 1]| <= size && (s == [] <==> b[|b| - 1] == [])
    decreases |s|
  {
    if |s| > size {
      var rest := s[size..];
      BatchesFull(rest, size);
      assert Batches(s, size)[1..] == Batches(rest, size);
    }
  }

  ghost predicate Clean<T>(batches: seq<seq<T>>) {
    forall i :: 0 <= i < |batches| ==> batches[i] != []
  }

  /** No batch is empty exactly when the batch size and the number of items are positive;
      otherwise the very first batch is empty. */
  lemma BatchesClean<T>(s: seq<T>, size: nat)
    ensures Batches(s, size) != []
    ensures Clean(Batches(s, size)) <==> size > 0 && s != []
    ensures !Clean(Batches(s, size)) <==> Batches(s, size)[0] == []
  {
    if size > 0 {
      BatchesFull(s, size);
    } else {
      assert Batches(s, size)[0] == [];
    }
  }

  lemma Uncons<T>(sent: seq<seq<T>>, current: seq<T>, front: seq<T>, tail: seq<seq<T>>)
    requires sent + [current] == [front] + tail && tail != []
    ensures sent != [] && sent == [front] + sent[1..] && sent[1..] + [current] == tail
  {
    assert |sent| == |tail| && sent[0] == (sent + [current])[0] == front;
    assert sent[1..] + [current] == (sent + [current])[1..];
    assert ([front] + tail)[1..] == tail;
  }

  lemma OnlyBatch<T>(sent: seq<seq<T>>, current: seq<T>, s: seq<T>)
    requires sent + [current] == [s]
    ensures sent == [] && current == s
  {
    assert |sent| + 1 == |[s]|;
    assert (sent + [current])[0] == s;
  }

  /** One more item goes into the last batch, or into a new one when that is full. */
  lemma {:induction false} BatchesSnoc<T>(s: seq<T>, t: T, size: nat, sent: seq<seq<T>>, current: seq<T>)
    requires sent + [current] == Batches(s, size)
    ensures Batches(s + [t], size) ==
            if |current| == size then sent + [current] + [[t]] else sent + [current + [t]]
    decreases |s|, 1
  {
    if size == 0 {
      if s == [] {
        OnlyBatch(sent, current, s);
        assert s + [t] == [t];
      } else {
        assert [[], s] == [[]] + [s];
        Uncons(sent, current, [], [s]);
        OnlyBatch(sent[1..], current, s);
      }
    } else if |s| <= size {
      OnlyBatch(sent, current, s);
      if |s| == size {
        assert (s + [t])[..size] == s && (s + [t])[size..] == [t];
      }
    } else {
      SnocTail(s, t, size, sent, current);
    }
  }

  lemma SnocTail<T>(s: seq<T>, t: T, size: nat, sent: seq<seq<T>>, current: seq<T>)
    requires 0 < size < |s| && sent + [current] == Batches(s, size)
    ensures Batches(s + [t], size) ==
            if |current| == size then sent + [current] + [[t]] else sent + [current + [t]]
    decreases |s|, 0
  {
    var front, rest := s[..size], s[size..];
    BatchesFull(rest, size);
    Uncons(sent, current, front, Batches(rest, size));
    BatchesSnoc(rest, t, size, sent[1..], current);
    assert (s + [t])[..size] == front && (s + [t])[size..] == rest + [t];
    assert Batches(s + [t], size) == [front] + Batches(rest + [t], size);
  }

  class BatchedSender<T> {
    const batchSize: nat
    var currentQueue: seq<T>
    /** Every batch handed to the channel. */
    var sent: seq<seq<T>>

    constructor (size: nat)
      ensures batchSize == size && Carries([])
    {
      batchSize, currentQueue, sent := size, [], [];
    }

    /** Exactly the items of `items` were sent since the sender was created. */
    ghost predicate Carries(items: seq<T>)
      reads this
    {
      sent + [currentQueue] == Batches(items, batchSize)
    }

    method Send(t: T, ghost items: seq<T>)
      requires Carries(items)
      modifies this
      ensures Carries(items + [t])
    {
      BatchesSnoc(items, t, batchSize, sent, currentQueue);
      assert [] + [t] == [t];
      if |currentQueue| == batchSize {
        sent, currentQueue := sent + [currentQueue], [];
      }
      currentQueue := currentQueue + [t];
    }

    method Flush(ghost items: seq<T>)
      requires Carries(items)
      modifies this
      ensures sent == Batches(items, batchSize) && currentQueue == []
    {
      sent, currentQueue := sent + [currentQueue], [];
    }
  }

  /** A generator thread: all events, then one flush. */
  method SendAll<T>(tx: BatchedSender<T>, events: seq<T>)
    requires tx.Carries([])
    modifies tx
    ensures tx.sent == Batches(events, tx.batchSize)
  {
    for i := 0 to |events|
      invariant tx.Carries(events[..i])
    {
      tx.Send(events[i], events[..i]);
      assert events[..i] + [events[i]] == events[..i + 1];
    }
    assert events[..|events|] == events;
    tx.Flush(events);
  }

  datatype Received<T> = Item(value: T) | Disconnected | Panicked

  class BatchedReceiver<T> {
    var rx: seq<seq<T>>
    var currentQueue: seq<T>

    constructor (batches: seq<seq<T>>)
      ensures rx == batches && currentQueue == []
    {
      rx, currentQueue := batches, [];
    }

    ghost function Pending(): seq<T>
      reads this
    {
      Prepend(currentQueue, Flatten(rx))
    }

    /** A batch without items makes the receiver panic; otherwise items come out one by one
        in the order they were sent, until the channel ends. */
    method Recv() returns (r: Received<T>)
      modifies this
      ensures r.Panicked? <==> old(currentQueue == [] && rx != [] && rx[0] == [])
      ensures r.Disconnected? <==> old(currentQueue == [] && rx == [])
      ensures r.Disconnected? ==> Pending() == [] == old(Pending())
      ensures r.Item? ==> old(Pending()) == [r.value] + Pending()
      ensures old(Clean(rx)) ==> Clean(rx)
    {
      if currentQueue != [] {
        r, currentQueue := Item(currentQueue[0]), currentQueue[1..];
      } else if rx == [] {
        r := Disconnected;
      } else {
        currentQueue, rx := rx[0], rx[1..];
        if currentQueue == [] {
          r := Panicked;
        } else {
          r, currentQueue := Item(currentQueue[0]), currentQueue[1..];
        }
      }
    }
  }
}
