/**
 What each output endpoint holds: which batches have been handed to the encoder, held by
 the output thread or queued, and what its counters say about them.
 */
module ControllerOutputs {
  import opened ControllerModel
  import opened Sums

  function Held(pc: OutputPc): seq<Batch> {
    if pc.Encoding? then [pc.b] else []
  }

  /** Records the output thread has taken and not yet subtracted. */
  function InHand(pc: OutputPc): nat {
    match pc
    case Encoding(b) => b.size
    case Labelling(b) => b.size
    case Subtracting(b) => b.size
    case _ => 0
  }

  /** The batch of the last completed step has not been queued at endpoint `i` yet. */
  predicate Unsent(pc: CircuitPc, i: nat) {
    match pc
    case StoringProcessed => true
    case Announcing(todo) => i in todo
    case Pushing(todo, _) => i in todo
    case WakingOutput(todo, j) => i in todo && i != j
    case _ => false
  }

  /** ... and has been added to `buffered_records`. */
  predicate Announced(pc: CircuitPc, i: nat) {
    pc.Pushing? && pc.i == i
  }

  function BatchSizes(bs: seq<Batch>): seq<nat> {
    seq(|bs|, k requires 0 <= k < |bs| => bs[k].size)
  }

  function LastLabel(bs: seq<Batch>): nat {
    if bs == [] then 0 else bs[|bs| - 1].frontier
  }

  /** The first `n` batches that the circuit produced for endpoint `i`. */
  function Produced(past: Past, i: nat, n: nat): seq<Batch>
    requires n <= |past.steps| && forall k :: 0 <= k < |past.steps| ==> i < |past.steps[k].sizes|
  {
    seq(n, k requires 0 <= k < n => BatchOf(past, k, i))
  }

  ghost predicate Wide(past: Past, i: nat) {
    forall k :: 0 <= k < |past.steps| ==> i < |past.steps[k].sizes|
  }

  /** Batches reach the encoder in the order of the steps that produced them, none is
      lost or repeated. */
  ghost predicate Fifo(pc: CircuitPc, past: Past, o: Output, i: nat) {
    && Wide(past, i)
    && (Unsent(pc, i) ==> past.steps != [])
    && o.encoded + Held(o.pc) + o.queue == Produced(past, i, |past.steps| - (if Unsent(pc, i) then 1 else 0))
  }

  /** `total_processed_input_records` is the label of the last encoded batch. */
  ghost predicate Labelled(o: Output) {
    && (o.pc.Labelling? ==>
          o.encoded != [] && o.encoded[|o.encoded| - 1] == o.pc.b &&
              o.frontier == LastLabel(o.encoded[..|o.encoded| - 1]))
    && (!o.pc.Labelling? ==> o.frontier == LastLabel(o.encoded))
  }

  /** `buffered_records` is what is queued, held by the output thread, or announced. */
  ghost predicate Accounted(pc: CircuitPc, past: Past, o: Output, i: nat) {
    && (Announced(pc, i) ==> past.steps != [] && i < |past.steps[|past.steps| - 1].sizes|)
    && o.buffered == Sum(BatchSizes(o.queue)) + InHand(o.pc)
                     + (if Announced(pc, i) then past.steps[|past.steps| - 1].sizes[i] else 0)
  }

  /** The circuit thread has seen room at endpoint `i` and has not used it yet. */
  predicate RoomSeen(pc: CircuitPc, i: nat) {
    match pc
    case CheckingOutputs(todo) => i !in todo
    case ParkedFull(_) => false
    case Announcing(todo) => i in todo
    case Pushing(todo, j) => i in todo && i != j
    case WakingOutput(todo, j) => i in todo && i != j
    case _ => true
  }

  ghost predicate Bounded(pc: CircuitPc, max: nat, o: Output, i: nat) {
    && (RoomSeen(pc, i) ==> o.buffered < max)
    && (o.buffered == 0 || o.buffered < max + o.last)
  }

  ghost predicate OutputInv(c: Config, pc: CircuitPc, past: Past, o: Output, i: nat) {
    && i < |c.maxOut|
    && Fifo(pc, past, o, i)
    && Labelled(o)
    && Accounted(pc, past, o, i)
    && Bounded(pc, c.maxOut[i], o, i)
  }

  lemma FifoMove(pc: CircuitPc, past: Past, o: Output, i: nat, max: nat)
    requires Fifo(pc, past, o, i)
    ensures Fifo(pc, past, OutputMove(max, o), i)
  {
    var o' := OutputMove(max, o);
    assert o'.encoded + Held(o'.pc) + o'.queue == o.encoded + Held(o.pc) + o.queue;
  }

  lemma AccountedMove(pc: CircuitPc, past: Past, o: Output, i: nat, max: nat)
    requires Accounted(pc, past, o, i)
    ensures Accounted(pc, past, OutputMove(max, o), i)
    ensures 0 <= OutputMove(max, o).buffered <= o.buffered
  {
    if o.pc.Popping? && o.queue != [] {
      SumTail(BatchSizes(o.queue));
      assert BatchSizes(o.queue)[1..] == BatchSizes(o.queue[1..]);
    }
  }

  /** A step of the output thread. */
  lemma OutputMoveKeeps(c: Config, pc: CircuitPc, past: Past, o: Output, i: nat)
    requires OutputInv(c, pc, past, o, i)
    ensures OutputInv(c, pc, past, OutputMove(c.maxOut[i], o), i)
  {
    FifoMove(pc, past, o, i, c.maxOut[i]);
    AccountedMove(pc, past, o, i, c.maxOut[i]);
  }

  /** The circuit thread announces the new batch of endpoint `i`. */
  lemma AnnounceKeeps(c: Config, todo: set<nat>, past: Past, o: Output, i: nat)
    requires OutputInv(c, Announcing(todo), past, o, i) && i in todo && past.steps != []
    ensures var n := past.steps[|past.steps| - 1].sizes[i];
            OutputInv(c, Pushing(todo, i), past, o.(buffered := o.buffered + n, last := n), i)
  {
  }

  lemma PushFifo(todo: set<nat>, past: Past, o: Output, i: nat)
    requires Fifo(Pushing(todo, i), past, o, i) && i in todo
    ensures Fifo(WakingOutput(todo, i), past, o.(queue := o.queue + [BatchOf(past, |past.steps| - 1, i)]), i)
  {
    var b := BatchOf(past, |past.steps| - 1, i);
    assert o.encoded + Held(o.pc) + (o.queue + [b]) == (o.encoded + Held(o.pc) + o.queue) + [b];
  }

  lemma PushAccounted(todo: set<nat>, past: Past, o: Output, i: nat)
    requires Accounted(Pushing(todo, i), past, o, i)
    ensures Accounted(WakingOutput(todo, i), past, o.(queue := o.queue + [BatchOf(past, |past.steps| - 1, i)]), i)
  {
    var b := BatchOf(past, |past.steps| - 1, i);
    assert BatchSizes(o.queue + [b]) == BatchSizes(o.queue) + [b.size];
    SumAppend(BatchSizes(o.queue), b.size);
  }

  /** The circuit thread queues the announced batch. */
  lemma PushKeeps(c: Config, todo: set<nat>, past: Past, o: Output, i: nat)
    requires OutputInv(c, Pushing(todo, i), past, o, i) && i in todo
    ensures OutputInv(c, WakingOutput(todo, i), past,
                      o.(queue := o.queue + [BatchOf(past, |past.steps| - 1, i)]), i)
  {
    PushFifo(todo, past, o, i);
    PushAccounted(todo, past, o, i);
  }

  /** Steps of the circuit thread that send nothing to endpoint `i`. */
  lemma PcKeeps(c: Config, pc: CircuitPc, pc': CircuitPc, past: Past, past': Past, o: Output, o': Output, i: nat)
    requires OutputInv(c, pc, past, o, i) && past'.steps == past.steps && o' == o.(token := o'.token)
    requires Unsent(pc, i) == Unsent(pc', i) && Announced(pc, i) == Announced(pc', i)
    requires RoomSeen(pc', i) ==> RoomSeen(pc, i)
    ensures OutputInv(c, pc', past', o', i)
  {
  }

  ghost predicate OutputsInv(c: Config, s: State) {
    && |s.outs| == |c.maxOut|
    && forall i :: 0 <= i < |s.outs| ==> OutputInv(c, s.circuit.pc, s.past, s.outs[i], i)
  }

  lemma OutputsInit(c: Config, s: State)
    requires Init(c, s)
    ensures OutputsInv(c, s)
  {
  }

  lemma OutputsOutput(c: Config, s: State, i: nat)
    requires OutputsInv(c, s) && OutputEnabled(c, s, i)
    ensures OutputsInv(c, OutputApply(c, s, i))
  {
    OutputMoveKeeps(c, s.circuit.pc, s.past, s.outs[i], i);
  }

  lemma OutputsCheck(c: Config, s: State, i: nat)
    requires OutputsInv(c, s) && s.circuit.pc.CheckingOutputs? && i in s.circuit.pc.todo && i < |s.outs|
    requires s.circuit.pc.todo <= c.Outputs()
    ensures OutputsInv(c, CheckOutputApply(c, s, i))
  {
  }

  lemma OutputsReturn(c: Config, s: State, after: nat, sizes: seq<nat>)
    requires OutputsInv(c, s) && s.circuit.pc.Stepping? && |sizes| == |c.maxOut|
    ensures OutputsInv(c, ReturnStepApply(s, after, sizes))
  {
  }

  lemma OutputsAnnounce(c: Config, s: State, i: nat)
    requires OutputsInv(c, s) && s.circuit.pc.Announcing? && i in s.circuit.pc.todo && CanSend(s, i)
    ensures OutputsInv(c, AnnounceApply(s, i))
  {
    AnnounceKeeps(c, s.circuit.pc.todo, s.past, s.outs[i], i);
  }

  lemma OutputsPush(c: Config, s: State)
    requires OutputsInv(c, s) && s.circuit.pc.Pushing? && s.circuit.pc.i in s.circuit.pc.todo && CircuitEnabled(s)
    ensures OutputsInv(c, CircuitApply(c, s))
  {
    var s' := CircuitApply(c, s);
    PushKeeps(c, s.circuit.pc.todo, s.past, s.outs[s.circuit.pc.i], s.circuit.pc.i);
    forall j | 0 <= j < |s.outs| && j != s.circuit.pc.i ensures OutputInv(c, s'.circuit.pc, s'.past, s'.outs[j], j) {
      PcKeeps(c, s.circuit.pc, s'.circuit.pc, s.past, s'.past, s.outs[j], s'.outs[j], j);
    }
  }

  lemma CircuitSendsNothing(c: Config, s: State, i: nat)
    requires CircuitEnabled(s) && !s.circuit.pc.Pushing? && i < |s.outs| == |c.maxOut|
    requires s.circuit.pc.WakingOutput? ==> s.circuit.pc.i in s.circuit.pc.todo
    ensures var s' := CircuitApply(c, s);
            && |s'.outs| == |s.outs| && s'.past.steps == s.past.steps &&
               s'.outs[i] == s.outs[i].(token := s'.outs[i].token)
            && Unsent(s.circuit.pc, i) == Unsent(s'.circuit.pc, i) && !Announced(s'.circuit.pc, i)
            && (RoomSeen(s'.circuit.pc, i) ==> RoomSeen(s.circuit.pc, i))
  {
  }

  lemma OutputsCircuit(c: Config, s: State)
    requires OutputsInv(c, s) && CircuitEnabled(s) && !s.circuit.pc.Pushing?
    requires s.circuit.pc.WakingOutput? ==> s.circuit.pc.i in s.circuit.pc.todo
    ensures OutputsInv(c, CircuitApply(c, s))
  {
    var s' := CircuitApply(c, s);
    forall i | 0 <= i < |s.outs| ensures OutputInv(c, s'.circuit.pc, s'.past, s'.outs[i], i) {
      CircuitSendsNothing(c, s, i);
      PcKeeps(c, s.circuit.pc, s'.circuit.pc, s.past, s'.past, s.outs[i], s'.outs[i], i);
    }
  }
}
