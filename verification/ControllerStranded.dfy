/**
 What a lost wake-up costs: if some end of input may fail to wake the circuit thread, the
 pipeline can come to rest with all inputs ended and records left behind, so the condition
 under which rest means completion is exact.
 */
module ControllerStranded {
  import opened ControllerModel
  import opened ControllerWakeups
  import opened ControllerTheorems
  import opened ControllerWitnesses
  import opened ControllerCompletion

  /** Every endpoint is started at some time, and its parser's `eoi` may succeed. */
  ghost predicate EveryInputCanEnd(c: Config)
    requires c.Valid()
  {
    forall e :: 0 <= e < |c.maxIn| ==> c.maxIn[e] > 0 && exists n :: n in c.eoiCounts && n <= c.batchCap[e]
  }

  // ---------------------------------------------------------------- ending an input

  /** What the end of input of endpoint `e` with `n` records leaves alone. */
  ghost predicate OnlyEnded(s: State, s': State, e: nat, n: nat) {
    && e < |s.ins| == |s'.ins| && s'.ins[e].pc.Finished?
    && (forall d :: 0 <= d < |s.ins| && d != e ==> s'.ins[d] == s.ins[d])
    && s'.circuit == s.circuit && s'.outs == s.outs && s'.bp == s.bp && s'.clientWaking == s.clientWaking
    && s'.shared.backpressureToken == s.shared.backpressureToken
    && s'.shared.processed == s.shared.processed
    && s'.shared.total == s.shared.total + n && s'.shared.buffered == s.shared.buffered + n
  }

  ghost predicate MayEnd(c: Config, s: State, e: nat, n: nat) {
    && e < |s.ins| && e < |c.maxIn| && e < |c.batchCap| && s.ins[e].pc.Idle? && HasBeenStarted(s.bp, e)
    && n in c.eoiCounts && n <= c.batchCap[e]
  }

  lemma Delivers(c: Config, s: State, e: nat, n: nat) returns (s': State)
    requires Reach(c, s) && MayEnd(c, s, e, n)
    ensures Reach(c, s') && s'.ins == s.ins[e := s.ins[e].(pc := AddingBuffered(true, n))]
    ensures s' == s.(ins := s'.ins, past := s'.past, shared := s.shared.(total := s.shared.total + n))
  {
    s' := Go(c, s, Deliver(e, true, n));
    s' := GoProbe(c, s', e);
  }

  lemma Raises(c: Config, s: State, e: nat, n: nat) returns (s': State)
    requires Reach(c, s) && e < |s.ins| && e < |c.maxIn| && s.ins[e].pc == AddingBuffered(true, n)
    ensures Reach(c, s') && |s'.ins| == |s.ins| && s'.ins[e].pc == AddingEndpoint(true, n)
    ensures forall d :: 0 <= d < |s.ins| && d != e ==> s'.ins[d] == s.ins[d]
    ensures s' == s.(ins := s'.ins, shared := s.shared.(buffered := s.shared.buffered + n,
                                                       circuitToken := s'.shared.circuitToken))
    ensures !EoiWakes(c, s.shared.buffered, n) ==> s'.shared.circuitToken == s.shared.circuitToken
  {
    s' := GoProbe(c, s, e);
    if s'.ins[e].pc.WakingCircuit? {
      s' := GoProbe(c, s', e);
    }
  }

  lemma Finishes(c: Config, s: State, e: nat, n: nat) returns (s': State)
    requires Reach(c, s) && e < |s.ins| && e < |c.maxIn| && s.ins[e].pc == AddingEndpoint(true, n)
    ensures Reach(c, s') && |s'.ins| == |s.ins| && s'.ins[e].pc.Finished?
    ensures forall d :: 0 <= d < |s.ins| && d != e ==> s'.ins[d] == s.ins[d]
    ensures s' == s.(ins := s'.ins)
  {
    s' := GoProbe(c, s, e);
    s' := GoProbe(c, s', e);
  }

  lemma EndsInput(c: Config, s: State, e: nat, n: nat) returns (s': State)
    requires Reach(c, s) && MayEnd(c, s, e, n)
    ensures Reach(c, s') && OnlyEnded(s, s', e, n)
    ensures !EoiWakes(c, s.shared.buffered, n) ==> s'.shared.circuitToken == s.shared.circuitToken
  {
    s' := Delivers(c, s, e, n);
    s' := Raises(c, s', e, n);
    s' := Finishes(c, s', e, n);
  }

  /** All inputs in `todo` end before the circuit thread looks. */
  lemma EndsInputs(c: Config, s: State, todo: set<nat>, last: nat) returns (s': State)
    requires c.Valid() && EveryInputCanEnd(c) && Reach(c, s) && |s.ins| == |c.maxIn| && last !in todo
    requires forall e :: e in todo ==> e < |s.ins|
    requires forall e :: 0 <= e < |s.ins| ==> HasBeenStarted(s.bp, e)
    requires forall e :: 0 <= e < |s.ins| ==>
               if e in todo || e == last then s.ins[e].pc.Idle? else s.ins[e].pc.Finished?
    ensures Reach(c, s') && |s'.ins| == |s.ins| && s'.circuit == s.circuit && s'.outs == s.outs && s'.bp == s.bp
    ensures forall e :: 0 <= e < |s'.ins| ==> if e == last then s'.ins[e].pc.Idle? else s'.ins[e].pc.Finished?
    decreases |todo|
  {
    if todo == {} {
      s' := s;
    } else {
      var e :| e in todo;
      var n :| n in c.eoiCounts && n <= c.batchCap[e];
      var next := EndsInput(c, s, e, n);
      SmallerSet(todo, e);
      s' := EndsInputs(c, next, todo - {e}, last);
    }
  }

  // ---------------------------------------------------------------- stranding

  /** The circuit thread sleeps for want of input and nobody has left it a token. */
  predicate Asleep(s: State) {
    s.circuit.pc.ParkedEmpty? && !s.shared.circuitToken && s.shared.buffered == 0
  }

  lemma RestIsAsleep(c: Config, s: State)
    requires Reach(c, s) && Stuck(c, s) && QuietPark(s) && OutputsHaveRoom(c)
    ensures Asleep(s) && s.shared.processed <= s.shared.total
  {
    ReachInv(c, s);
    StuckCircuit(c, s);
    forall i | 0 <= i < |s.outs| ensures s.outs[i].buffered == 0 && s.outs[i].pc.OutputParked? {
      StuckOutput(c, s, i);
    }
  }

  /** An end of input that wakes nobody leaves everybody at rest. */
  lemma RestStays(c: Config, s: State, s': State, e: nat, n: nat)
    requires Stuck(c, s) && Asleep(s) && OnlyEnded(s, s', e, n) && InputsEnded(s'.ins) && !s'.shared.circuitToken
    ensures Stuck(c, s')
  {
    forall step | Enabled(c, s', step)
      ensures step.Deliver? || step.ClientSets? || step.MonitorCalls? || step.MonitorReads?
    {
      if IsThreadStep(step) {
        SameStep(c, s, s', step, e, n);
      }
    }
  }

  lemma SameStep(c: Config, s: State, s': State, step: Step, e: nat, n: nat)
    requires Asleep(s) && OnlyEnded(s, s', e, n) && InputsEnded(s'.ins) && !s'.shared.circuitToken
    requires Enabled(c, s', step) && IsThreadStep(step)
    ensures Enabled(c, s, step)
  {
  }

  /** Right after the start, every input but `last` ends, and the threads come to rest. */
  lemma RestsBeforeLast(c: Config, last: nat) returns (s: State)
    requires c.Valid() && OutputsHaveRoom(c) && EveryInputCanEnd(c) && last < |c.maxIn|
    ensures Reach(c, s) && Stuck(c, s) && QuietPark(s) && HasBeenStarted(s.bp, last) && |s.ins| == |c.maxIn|
    ensures forall e :: 0 <= e < |s.ins| ==> if e == last then s.ins[e].pc.Idle? else s.ins[e].pc.Finished?
  {
    var start := StartAll(c);
    forall e | 0 <= e < |start.ins| ensures HasBeenStarted(start.bp, e) {
      AtRest(c, start, e);
    }
    var ended := EndsInputs(c, start, c.Inputs() - {last}, last);
    s := ComesToRest(c, ended, last);
    SamePcs(ended.ins, s.ins);
  }

  lemma Strands(c: Config) returns (s: State)
    requires c.Valid() && OutputsHaveRoom(c) && EveryInputCanEnd(c) && !EoiSafe(c)
    ensures Reach(c, s) && Stuck(c, s) && InputsEnded(s.ins) && !PipelineComplete(s)
  {
    var e, n :|
      && 0 <= e < |c.batchCap| && e < |c.maxIn| && c.maxIn[e] > 0
      && n in c.eoiCounts && n <= c.batchCap[e] && !(n == 0 || 0 < c.minBatch <= n);
    var before := RestsBeforeLast(c, e);
    RestIsAsleep(c, before);
    s := EndsInput(c, before, e, n);
    RestStays(c, before, s, e, n);
  }

  /** Rest with ended inputs always means completion exactly when no end of input can fail to
      wake the circuit thread. */
  lemma RestIsCompleteExactly(c: Config)
    requires c.Valid() && OutputsHaveRoom(c) && EveryInputCanEnd(c)
    ensures (forall s :: Reach(c, s) && Stuck(c, s) && InputsEnded(s.ins) ==> PipelineComplete(s)) <==> EoiSafe(c)
  {
    if EoiSafe(c) {
      forall s | Reach(c, s) && Stuck(c, s) && InputsEnded(s.ins) ensures PipelineComplete(s) {
        RestIsComplete(c, s);
      }
    } else {
      var s := Strands(c);
    }
  }
}
