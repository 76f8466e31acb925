/**
 What the controller guarantees over every run, that is, in every interleaving of its
 threads.
 */
module ControllerTheorems {
  import opened ControllerModel
  import opened ControllerShape
  import opened ControllerCounting
  import opened ControllerProgress
  import opened ControllerOutputs
  import opened ControllerDrift
  import opened ControllerWakeups
  import opened ControllerMonitor
  import opened ControllerBackpressure
  import opened ControllerInvariant
  import opened Sums

  // ---------------------------------------------------------------- completion

  /** `pipeline_complete` never answers true too early, although its reads happen at
      different moments: every flushed record went through the circuit, and every batch of
      a step that consumed a record was handed to the encoder of every endpoint, in place. */
  lemma CompleteIsSound(c: Config, run: seq<State>, k: nat)
    requires IsRun(c, run) && k < |run| && run[k].monitor.Complete?
    ensures var s := run[k];
            && (forall e :: 0 <= e < |s.ins| ==> s.ins[e].eoi)
            && s.past.consumed == s.past.flushed == s.shared.total
            && forall i, m ::
                 0 <= i < |s.outs| && 0 <= m < |s.past.steps| && s.past.steps[m].before < s.past.steps[m].after ==>
                 && m < |s.outs[i].encoded| && i < |s.past.steps[m].sizes|
                 && s.outs[i].encoded[m] == BatchOf(s.past, m, i)
  {
    InvRun(c, run, k);
    var s := run[k];
    forall i, m | 0 <= i < |s.outs| && 0 <= m < |s.past.steps| && s.past.steps[m].before < s.past.steps[m].after
      ensures m < |s.outs[i].encoded| && i < |s.past.steps[m].sizes| && s.outs[i].encoded[m] == BatchOf(s.past, m, i)
    {
      var o := s.outs[i];
      assert Delivered(s.past, o) && OutputInv(c, s.circuit.pc, s.past, o, i);
      assert (o.encoded + Held(o.pc) + o.queue)[m] == o.encoded[m];
    }
  }

  /** The answer that `pipeline_complete` gives when nothing moves while it reads. */
  ghost predicate PipelineComplete(s: State) {
    && (forall e :: 0 <= e < |s.ins| ==> s.ins[e].eoi)
    && s.shared.processed == s.shared.total
    && forall i :: 0 <= i < |s.outs| ==> s.outs[i].frontier == s.shared.total
  }

  /** Only the transports, the client and the monitor can still act. */
  ghost predicate Stuck(c: Config, s: State) {
    forall step :: Enabled(c, s, step) ==> step.Deliver? || step.ClientSets? || step.MonitorCalls? || step.MonitorReads?
  }

  ghost predicate OutputsHaveRoom(c: Config) {
    forall i :: 0 <= i < |c.maxOut| ==> c.maxOut[i] > 0
  }

  lemma StuckProbe(c: Config, s: State, e: nat)
    requires Stuck(c, s) && Shape(c, s) && e < |s.ins|
    ensures s.ins[e].pc.Idle? || s.ins[e].pc.Finished?
  {
    assert !Enabled(c, s, ProbeStep(e));
  }

  /** A circuit thread that is not parked without a token has a step to take. */
  lemma CircuitCanMove(c: Config, s: State) returns (step: Step)
    requires Shape(c, s) && Flow(s)
    requires (s.circuit.pc.ParkedFull? || s.circuit.pc.ParkedEmpty?) ==> s.shared.circuitToken
    ensures Enabled(c, s, step)
    ensures step.CheckOutput? || step.Announce? || step.ResetEndpoint? || step.ReadBuffered? || step.ReturnStep? ||
        step.CircuitStep?
  {
    match s.circuit.pc
    case CheckingOutputs(todo) => var i :| i in todo; step := CheckOutput(i);
    case Announcing(todo) => var i :| i in todo; step := Announce(i);
    case ResettingEndpoints(todo) => var e :| e in todo; step := ResetEndpoint(e);
    case ReadingBuffered => step := ReadBuffered(false);
    case Stepping(_) => step := ReturnStep(s.past.flushed, seq(|c.maxOut|, _ => 0));
    case _ => step := CircuitStep;
  }

  lemma StuckCircuit(c: Config, s: State)
    requires Stuck(c, s) && Shape(c, s) && Flow(s)
    ensures (s.circuit.pc.ParkedFull? || s.circuit.pc.ParkedEmpty?) && !s.shared.circuitToken
  {
    if (s.circuit.pc.ParkedFull? || s.circuit.pc.ParkedEmpty?) ==> s.shared.circuitToken {
      var _ := CircuitCanMove(c, s);
    }
  }

  lemma StuckOutput(c: Config, s: State, i: nat)
    requires Stuck(c, s) && Shape(c, s) && Wakeable(c, s) && OutputsInv(c, s) && i < |s.outs|
    requires s.circuit.pc.ParkedFull? || s.circuit.pc.ParkedEmpty?
    ensures s.outs[i].buffered == 0 && s.outs[i].frontier == LastFrontier(s.past.steps)
    ensures s.outs[i].pc.OutputParked?
  {
    assert !Enabled(c, s, OutputStep(i));
    var o := s.outs[i];
    assert OutputWakeable(s.circuit.pc, o, i) && OutputInv(c, s.circuit.pc, s.past, o, i);
    assert o.encoded == Produced(s.past, i, |s.past.steps|);
    SumZero(BatchSizes(o.queue));
  }

  /** The threads come to rest only when everything counted has been processed: if no
      thread can move and all inputs have ended, `pipeline_complete` answers true. */
  lemma StuckMeansComplete(c: Config, run: seq<State>, k: nat)
    requires IsRun(c, run) && k < |run| && Stuck(c, run[k])
    requires EoiSafe(c) && OutputsHaveRoom(c)
    requires forall e :: 0 <= e < |run[k].ins| ==> run[k].ins[e].pc.Finished?
    ensures PipelineComplete(run[k])
  {
    InvRun(c, run, k);
    var s := run[k];
    StuckCircuit(c, s);
    forall i | 0 <= i < |s.outs|
      ensures s.outs[i].buffered == 0 && s.outs[i].frontier == LastFrontier(s.past.steps)
      ensures s.outs[i].pc.OutputParked?
    {
      StuckOutput(c, s, i);
    }
    assert s.circuit.pc.ParkedEmpty?;
    SumZero(AllUncounted(s.ins));
    forall e | 0 <= e < |s.ins| ensures s.ins[e].eoi {
      assert ProbeInv(c, s.circuit.pc, s.ins[e], e);
    }
  }

  /** The threads also come to rest with every endpoint either ended or told to run, when
      the client wants it to run and its batches are smaller than its limit. */
  lemma StuckMeansStarted(c: Config, run: seq<State>, k: nat, e: nat)
    requires IsRun(c, run) && k < |run| && Stuck(c, run[k])
    requires EoiSafe(c) && OutputsHaveRoom(c)
    requires run[k].shared.desired == Running && e < |run[k].ins| && c.Valid() && e < |c.maxIn|
    requires c.batchCap[e] < c.maxIn[e]
    ensures run[k].ins[e].pc.Finished? || (e < |run[k].bp.commands| && Started(run[k].bp.commands[e]))
  {
    InvRun(c, run, k);
    var s := run[k];
    StuckCircuit(c, s);
    forall i | 0 <= i < |s.outs| ensures s.outs[i].buffered == 0 && s.outs[i].pc.OutputParked? {
      StuckOutput(c, s, i);
    }
    assert s.circuit.pc.ParkedEmpty?;
    forall d | 0 <= d < |s.ins| ensures s.ins[d].pc.Idle? || s.ins[d].pc.Finished? {
      StuckProbe(c, s, d);
    }
    BackpressureAtRest(c, s);
    NoDrift(c, s, e);
    assert s.bp.sawFull[e] == (s.ins[e].buffered >= c.maxIn[e]) || Ending(s.ins[e]);
  }

  lemma BackpressureCanMove(c: Config, s: State) returns (step: Step)
    requires Shape(c, s) && (s.bp.pc.BackpressureParked? ==> s.shared.backpressureToken)
    ensures Enabled(c, s, step) && (step.ReadFull? || step.PauseEndpoint? || step.BackpressureStep?)
  {
    match s.bp.pc
    case Scanning(todo) => var e :| e in todo; step := ReadFull(e);
    case Pausing(todo) => var e :| e in todo; step := PauseEndpoint(e);
    case _ => step := BackpressureStep;
  }

  lemma BackpressureAtRest(c: Config, s: State)
    requires Stuck(c, s) && Shape(c, s)
    ensures s.bp.pc.BackpressureParked? && !s.shared.backpressureToken && !s.clientWaking
  {
    assert s.clientWaking == Enabled(c, s, ClientWakes);
    if s.bp.pc.BackpressureParked? ==> s.shared.backpressureToken {
      var _ := BackpressureCanMove(c, s);
    }
  }

  // ---------------------------------------------------------------- wake-ups

  /** No wake-up is lost: a thread blocked without a token is right to be blocked, or some
      thread is between its update and its unpark. */
  lemma NoLostWakeup(c: Config, run: seq<State>, k: nat)
    requires IsRun(c, run) && k < |run| && EoiSafe(c)
    ensures var s := run[k];
            && (s.circuit.pc.ParkedFull? && !s.shared.circuitToken ==>
                  exists i :: 0 <= i < |s.outs| == |c.maxOut| &&
                      (s.outs[i].buffered >= c.maxOut[i] || s.outs[i].pc.OutputWaking?))
            && (s.circuit.pc.ParkedEmpty? && !s.shared.circuitToken ==> s.shared.buffered == 0 || ProbeWaking(s.ins))
            && (forall i :: 0 <= i < |s.outs| && s.outs[i].pc.OutputParked? && !s.outs[i].token ==>
                  s.outs[i].queue == [] || (s.circuit.pc.WakingOutput? && s.circuit.pc.i == i))
  {
    InvRun(c, run, k);
    var s := run[k];
    if s.circuit.pc.ParkedFull? && !s.shared.circuitToken {
      var i := s.circuit.pc.i;
      assert s.outs[i].buffered >= c.maxOut[i] || s.outs[i].pc.OutputWaking?;
    }
    forall i | 0 <= i < |s.outs| && s.outs[i].pc.OutputParked? && !s.outs[i].token
      ensures s.outs[i].queue == [] || (s.circuit.pc.WakingOutput? && s.circuit.pc.i == i)
    {
      assert OutputWakeable(s.circuit.pc, s.outs[i], i);
    }
  }

  // ---------------------------------------------------------------- counters

  lemma NoDrift(c: Config, s: State, e: nat)
    requires Inv(c, s) && e < |s.ins| && s.shared.buffered == 0 && !s.circuit.pc.ResettingEndpoints?
    ensures e < |c.batchCap| && s.ins[e].buffered <= c.batchCap[e]
  {
    assert ProbeInv(c, s.circuit.pc, s.ins[e], e);
    SumZero(AllOwn(s.ins));
    assert AllOwn(s.ins)[e] == 0;
  }

  /** The endpoint counters do not drift away from the global one: when that is 0 and no
      reset is under way, an endpoint's counter holds at most one batch. */
  lemma DriftIsOneBatch(c: Config, run: seq<State>, k: nat, e: nat)
    requires IsRun(c, run) && k < |run| && e < |run[k].ins|
    requires run[k].shared.buffered == 0 && !run[k].circuit.pc.ResettingEndpoints?
    ensures e < |c.batchCap| && run[k].ins[e].buffered <= c.batchCap[e]
  {
    InvRun(c, run, k);
    NoDrift(c, run[k], e);
  }

  /** An output endpoint's counter is exactly what is queued, held by its thread or
      announced; it never underflows and stays below its limit plus the latest batch. */
  lemma OutputAccounting(c: Config, run: seq<State>, k: nat, i: nat)
    requires IsRun(c, run) && k < |run| && i < |run[k].outs|
    ensures var s := run[k]; var o := s.outs[i];
            && (Announced(s.circuit.pc, i) ==> CanSend(s, i))
            && o.buffered == Sum(BatchSizes(o.queue)) + InHand(o.pc)
                             + (if Announced(s.circuit.pc, i) then BatchOf(s.past, |s.past.steps| - 1, i).size else 0)
            && (o.pc.Subtracting? ==> o.buffered - o.pc.b.size >= 0)
            && i < |c.maxOut| && (o.buffered == 0 || o.buffered < c.maxOut[i] + o.last)
  {
    InvRun(c, run, k);
    assert OutputInv(c, run[k].circuit.pc, run[k].past, run[k].outs[i], i);
  }

  /** Resetting the counters strands no record, and steps are never idle: each one follows
      at least one newly counted record. */
  lemma NothingStranded(c: Config, run: seq<State>, k: nat)
    requires IsRun(c, run) && k < |run|
    ensures var s := run[k];
            && (!s.circuit.pc.ResettingEndpoints? && !s.circuit.pc.ReadingTotal? ==>
                  s.shared.total <= s.circuit.frontier + s.shared.buffered + Sum(AllUncounted(s.ins)))
            && |s.past.steps| <= s.shared.total
            && s.shared.processed <= s.past.consumed <= s.past.flushed
            && (forall m :: 0 <= m < |s.past.steps| ==> s.past.steps[m].frontier <= s.past.steps[m].after)
  {
    InvRun(c, run, k);
  }

  // ---------------------------------------------------------------- progress labels

  lemma LabelStep(c: Config, s: State, i: nat)
    requires OutputsInv(c, s) && StepsOrdered(s.past) && i < |s.outs|
    ensures s.outs[i].frontier <= OutputMove(c.maxOut[i], s.outs[i]).frontier
    ensures s.outs[i].frontier <= s.past.consumed
  {
    var o := s.outs[i];
    assert OutputInv(c, s.circuit.pc, s.past, o, i);
    var all := o.encoded + Held(o.pc) + o.queue;
    if o.pc.Labelling? && |o.encoded| >= 2 {
      var m := |o.encoded| - 2;
      assert all[m] == BatchOf(s.past, m, i) && all[m + 1] == BatchOf(s.past, m + 1, i);
    } else if !o.pc.Labelling? && o.encoded != [] {
      assert all[|o.encoded| - 1] == BatchOf(s.past, |o.encoded| - 1, i);
    }
  }

  lemma LabelsStep(c: Config, s: State, step: Step, i: nat)
    requires OutputsInv(c, s) && StepsOrdered(s.past) && i < |s.outs| && Enabled(c, s, step)
    ensures |Apply(c, s, step).outs| == |s.outs|
    ensures s.outs[i].frontier <= Apply(c, s, step).outs[i].frontier
  {
    LabelStep(c, s, i);
  }

  lemma ProcessedStep(c: Config, s: State, step: Step)
    requires Progress(s.shared, s.circuit, s.past) && Enabled(c, s, step)
    ensures s.shared.processed <= Apply(c, s, step).shared.processed
  {
  }

  lemma LabelsNext(c: Config, run: seq<State>, k: nat, i: nat)
    requires IsRun(c, run) && k + 1 < |run| && i < |run[k].outs|
    ensures i < |run[k + 1].outs|
    ensures run[k].outs[i].frontier <= run[k + 1].outs[i].frontier
    ensures run[k].shared.processed <= run[k + 1].shared.processed
  {
    InvRun(c, run, k);
    assert StepAt(c, run, k);
    var step :| Enabled(c, run[k], step) && run[k + 1] == Apply(c, run[k], step);
    LabelsStep(c, run[k], step, i);
    ProcessedStep(c, run[k], step);
  }

  lemma LabelsConsumed(c: Config, run: seq<State>, k: nat, i: nat)
    requires IsRun(c, run) && k < |run| && i < |run[k].outs|
    ensures run[k].outs[i].frontier <= run[k].past.consumed && run[k].shared.processed <= run[k].past.consumed
  {
    InvRun(c, run, k);
    LabelStep(c, run[k], i);
  }

  ghost predicate LabelsGrown(s: State, s': State, i: nat) {
    && i < |s.outs| && i < |s'.outs|
    && s.outs[i].frontier <= s'.outs[i].frontier && s.shared.processed <= s'.shared.processed
  }

  lemma {:induction false} LabelsGrow(c: Config, run: seq<State>, j: nat, k: nat, i: nat)
    requires IsRun(c, run) && j <= k < |run| && i < |run[j].outs|
    ensures LabelsGrown(run[j], run[k], i)
    decreases k
  {
    if j < k {
      LabelsGrow(c, run, j, k - 1, i);
      LabelsNext(c, run, k - 1, i);
    }
  }

  /** Progress labels never go back, neither the circuit's nor an endpoint's, and no label
      is ahead of the records that were consumed. */
  lemma LabelsNeverDecrease(c: Config, run: seq<State>, j: nat, k: nat, i: nat)
    requires IsRun(c, run) && j <= k < |run| && i < |run[j].outs|
    ensures i < |run[k].outs|
    ensures run[j].outs[i].frontier <= run[k].outs[i].frontier <= run[k].past.consumed
    ensures run[j].shared.processed <= run[k].shared.processed <= run[k].past.consumed
  {
    LabelsGrow(c, run, j, k, i);
    LabelsConsumed(c, run, k, i);
  }

  // ---------------------------------------------------------------- backpressure

  /** Each endpoint's commands alternate, beginning with `Start`, and after a scan an
      endpoint runs exactly when the scan saw the state `Running` and the endpoint not full. */
  lemma CommandsAlternate(c: Config, run: seq<State>, k: nat, e: nat)
    requires IsRun(c, run) && k < |run| && e < |run[k].bp.commands|
    ensures Alternates(run[k].bp.commands[e])
    ensures run[k].bp.pc.BackpressureParked? ==>
              e < |run[k].bp.sawFull| &&
                  (Started(run[k].bp.commands[e]) <==> run[k].bp.sawRunning && !run[k].bp.sawFull[e])
  {
    InvRun(c, run, k);
  }

  /** The backpressure thread sleeps only on fresh information: when it is blocked and
      nobody is about to unpark it, its last scan saw what is still the case. */
  lemma BackpressureIsFresh(c: Config, run: seq<State>, k: nat)
    requires IsRun(c, run) && k < |run| && run[k].bp.pc.BackpressureParked? && !WakePending(run[k])
    ensures var s := run[k];
            && (s.bp.sawRunning <==> s.shared.desired == Running)
            && (s.bp.sawRunning ==> forall e :: 0 <= e < |s.ins| ==>
                  e < |s.bp.sawFull| && e < |c.maxIn| &&
                      (Ending(s.ins[e]) || (s.bp.sawFull[e] <==> s.ins[e].buffered >= c.maxIn[e])))
  {
    InvRun(c, run, k);
  }
}
