/**
 When the circuit takes a step: above `min_batch_size_records`, or after the buffering delay,
 which starts at the first look that finds fewer records.  And whether a batch that exceeds
 the minimum ends the wait for that delay: it does, unless it is the last of its endpoint.
 */
module ControllerBatching {
  import opened ControllerModel
  import opened ControllerDrift
  import opened ControllerOutputs
  import opened ControllerWakeups
  import opened ControllerInvariant
  import opened ControllerTheorems
  import opened ControllerWitnesses

  // ---------------------------------------------------------------- the delay

  /** At `j` the circuit thread looked, found too few records and started the delay, and it has
      not taken a step up to `k`. */
  ghost predicate DelaySince(c: Config, run: seq<State>, j: nat, k: nat)
    requires j < k < |run|
  {
    && 0 < run[j].shared.buffered <= c.minBatch
    && run[j].circuit.pc.ReadingBuffered? && !run[j].circuit.armed
    && run[j + 1].circuit.pc.ParkedTimed? && run[k].past.resets == run[j].past.resets
  }

  /** The delay is armed by a look that finds records, but not enough. */
  lemma ArmedStep(c: Config, s: State, step: Step)
    requires Enabled(c, s, step) && Apply(c, s, step).circuit.armed
    ensures Apply(c, s, step).past.resets == s.past.resets || s.circuit.pc.ResettingGlobal?
    ensures s.circuit.armed ||
        (s.circuit.pc.ReadingBuffered? && 0 < s.shared.buffered <= c.minBatch &&
         Apply(c, s, step).circuit.pc.ParkedTimed?)
  {
  }

  lemma ArmedNext(c: Config, run: seq<State>, k: nat)
    requires IsRun(c, run) && k + 1 < |run| && run[k + 1].circuit.armed
    ensures run[k + 1].past.resets == run[k].past.resets
    ensures run[k].circuit.armed || DelaySince(c, run, k, k + 1)
  {
    NextOf(c, run, k);
    var step :| Enabled(c, run[k], step) && run[k + 1] == Apply(c, run[k], step);
    InvRun(c, run, k + 1);
    ArmedStep(c, run[k], step);
  }

  lemma {:induction false} ArmedSince(c: Config, run: seq<State>, k: nat) returns (j: nat)
    requires IsRun(c, run) && k < |run| && run[k].circuit.armed
    ensures j < k && DelaySince(c, run, j, k)
  {
    ArmedNext(c, run, k - 1);
    if run[k - 1].circuit.armed {
      j := ArmedSince(c, run, k - 1);
    } else {
      j := k - 1;
    }
  }

  // ---------------------------------------------------------------- the decision

  /** The circuit thread looked at the number of buffered records and decided. */
  ghost predicate Decides(s: State, s': State) {
    s.circuit.pc.ReadingBuffered? && s'.circuit.pc != s.circuit.pc
  }

  lemma DecisionStep(c: Config, s: State, step: Step)
    requires Inv(c, s) && Enabled(c, s, step) && Decides(s, Apply(c, s, step))
    ensures var b, pc := s.shared.buffered, Apply(c, s, step).circuit.pc;
            && (pc.ParkedEmpty? <==> b == 0)
            && (pc.ResettingGlobal? ==> b > c.minBatch || s.circuit.armed)
            && (pc.ParkedTimed? ==> 0 < b <= c.minBatch)
            && (pc.ParkedEmpty? || pc.ParkedTimed? || pc.ResettingGlobal?)
  {
  }

  lemma DecisionNext(c: Config, run: seq<State>, k: nat)
    requires IsRun(c, run) && k + 1 < |run| && Decides(run[k], run[k + 1])
    ensures var b, pc := run[k].shared.buffered, run[k + 1].circuit.pc;
            && (pc.ParkedEmpty? <==> b == 0)
            && (pc.ResettingGlobal? ==> b > c.minBatch || run[k].circuit.armed)
            && (pc.ParkedTimed? ==> 0 < b <= c.minBatch)
            && (pc.ParkedEmpty? || pc.ParkedTimed? || pc.ResettingGlobal?)
  {
    NextOf(c, run, k);
    var step :| Enabled(c, run[k], step) && run[k + 1] == Apply(c, run[k], step);
    DecisionStep(c, run[k], step);
  }

  /** In every run the circuit thread steps at every look that finds more records than the
      minimum, sleeps without a deadline exactly at those that find none, and at the others
      steps only if it has started the delay since its last step. */
  lemma DecisionExactly(c: Config, run: seq<State>, k: nat)
    requires IsRun(c, run) && k + 1 < |run| && Decides(run[k], run[k + 1])
    ensures var b, pc := run[k].shared.buffered, run[k + 1].circuit.pc;
            if b > c.minBatch then pc.ResettingGlobal?
            else if b == 0 then pc.ParkedEmpty?
            else pc.ParkedTimed? || (pc.ResettingGlobal? && exists j :: 0 <= j < k && DelaySince(c, run, j, k))
  {
    DecisionNext(c, run, k);
    if run[k].circuit.armed {
      var j := ArmedSince(c, run, k);
    }
  }

  // ---------------------------------------------------------------- wake-ups

  /** A counter that went from `b` to `b'` has reached the threshold. */
  predicate Reaches(b: int, threshold: int, b': int) {
    b < threshold <= b'
  }

  /** A probe that has raised the global counter goes on to unpark the circuit thread exactly if
      the counter left 0 or exceeded the minimum; at the end of input, if it reached it. */
  lemma ProbeUnparksExactly(c: Config, s: State, e: nat)
    requires ProbeEnabled(c, s, e)
    ensures var p, s' := s.ins[e].pc, ProbeApply(c, s, e);
            p.AddingBuffered? ==>
              (s'.ins[e].pc.WakingCircuit? <==>
                if p.eoi then Reaches(s.shared.buffered, c.minBatch, s'.shared.buffered)
                else s.shared.buffered == 0 || Reaches(s.shared.buffered, c.minBatch + 1, s'.shared.buffered))
    ensures var p, s' := s.ins[e].pc, ProbeApply(c, s, e);
            p.AddingEndpoint? ==>
              (s'.ins[e].pc.WakingBackpressure? <==>
                !p.eoi && Reaches(s.ins[e].buffered, c.maxIn[e], s'.ins[e].buffered))
  {
  }

  /** An output thread goes on to unpark the circuit thread exactly if its counter was at the
      limit or above and is not above it any more. */
  lemma OutputUnparksExactly(c: Config, s: State, i: nat)
    requires OutputEnabled(c, s, i) && s.outs[i].pc.Subtracting?
    ensures var o, o' := s.outs[i], OutputApply(c, s, i).outs[i];
            o'.pc.OutputWaking? <==> o'.buffered <= c.maxOut[i] <= o.buffered
  {
  }

  /** The circuit thread waits for the delay with nobody about to wake it, although there are
      more records than the minimum. */
  ghost predicate Oversleeps(c: Config, s: State) {
    s.circuit.pc.ParkedTimed? && !s.shared.circuitToken && s.shared.buffered > c.minBatch && !ProbeWaking(s.ins)
  }

  /** No endpoint that is ever started delivers records with its end. */
  ghost predicate EndsAreEmpty(c: Config) {
    forall e, n ::
      0 <= e < |c.batchCap| && e < |c.maxIn| && c.maxIn[e] > 0 && n in c.eoiCounts && n <= c.batchCap[e] ==> n == 0
  }

  lemma AwakeProbe(c: Config, s: State, e: nat)
    requires !Oversleeps(c, s) && ProbesInv(c, s) && ProbeEnabled(c, s, e)
    requires s.circuit.pc.ParkedTimed? ==> s.shared.buffered > 0 && EndsAreEmpty(c)
    ensures !Oversleeps(c, ProbeApply(c, s, e))
  {
    var s' := ProbeApply(c, s, e);
    assert ProbeInv(c, s.circuit.pc, s.ins[e], e);
    if s.circuit.pc.ParkedTimed? && !s'.shared.circuitToken {
      if ProbeWaking(s.ins) {
        var w :| 0 <= w < |s.ins| && s.ins[w].pc.WakingCircuit?;
        assert w != e && s'.ins[w].pc.WakingCircuit?;
      } else if s.ins[e].pc.AddingBuffered? && s.shared.buffered + s.ins[e].pc.n > c.minBatch {
        assert s'.ins[e].pc.WakingCircuit?;
      }
    }
  }

  lemma AwakeOther(c: Config, s: State, step: Step)
    requires !Oversleeps(c, s) && Enabled(c, s, step) && !step.ProbeStep?
    ensures !Oversleeps(c, Apply(c, s, step))
  {
    if ProbeWaking(s.ins) {
      var w :| 0 <= w < |s.ins| && s.ins[w].pc.WakingCircuit?;
      assert step.Deliver? ==> w != step.e;
      assert !step.CircuitStep? ==> Apply(c, s, step).ins[w].pc.WakingCircuit?;
    }
  }

  ghost predicate Attentive(c: Config, s: State) {
    && (s.circuit.pc.ParkedTimed? ==> s.circuit.armed && c.minBatch > 0)
    && (EndsAreEmpty(c) ==> !Oversleeps(c, s))
  }

  lemma ArmedPark(c: Config, s: State, step: Step)
    requires Enabled(c, s, step) && (s.circuit.pc.ParkedTimed? ==> s.circuit.armed && c.minBatch > 0)
    ensures var t := Apply(c, s, step).circuit; t.pc.ParkedTimed? ==> t.armed && c.minBatch > 0
  {
  }

  lemma AttentiveStep(c: Config, s: State, step: Step)
    requires Inv(c, s) && Enabled(c, s, step) && Attentive(c, s)
    ensures Attentive(c, Apply(c, s, step))
  {
    ArmedPark(c, s, step);
    if EndsAreEmpty(c) {
      if step.ProbeStep? {
        AwakeProbe(c, s, step.e);
      } else {
        AwakeOther(c, s, step);
      }
    }
  }

  lemma AttentiveNext(c: Config, run: seq<State>, k: nat)
    requires IsRun(c, run) && k + 1 < |run| && Attentive(c, run[k])
    ensures Attentive(c, run[k + 1])
  {
    NextOf(c, run, k);
    var step :| Enabled(c, run[k], step) && run[k + 1] == Apply(c, run[k], step);
    AttentiveStep(c, run[k], step);
  }

  lemma {:induction false} AttentiveRun(c: Config, run: seq<State>, k: nat)
    requires IsRun(c, run) && k < |run|
    ensures Attentive(c, run[k])
  {
    if k > 0 {
      AttentiveRun(c, run, k - 1);
      AttentiveNext(c, run, k - 1);
    }
  }

  // ---------------------------------------------------------------- and when it oversleeps

  /** Only the probe of endpoint `e` has acted. */
  ghost predicate Only(s: State, s': State, e: nat) {
    && e < |s.ins| == |s'.ins|
    && s' == s.(shared := s'.shared, past := s'.past, ins := s.ins[e := s'.ins[e]])
  }

  /** A started endpoint delivers one record. */
  lemma DeliverOne(c: Config, s: State, e: nat) returns (s': State)
    requires Reach(c, s) && HasBeenStarted(s.bp, e) && e < |s.ins| && e < |c.maxIn| && e < |c.batchCap|
    requires c.batchCap[e] > 0 && s.ins[e].pc.Idle?
    ensures Reach(c, s') && Only(s, s', e)
    ensures s'.ins[e].pc.Idle? && s'.shared.buffered == s.shared.buffered + 1
  {
    s' := Counts(c, s, e, 1);
    s' := CountsOn(c, s', e);
  }

  /** ... and counts it. */
  lemma CountsOn(c: Config, s: State, e: nat) returns (s': State)
    requires Reach(c, s) && e < |s.ins| && e < |c.maxIn| && s.ins[e].pc == AddingBuffered(false, 1)
    ensures Reach(c, s') && Only(s, s', e)
    ensures s'.ins[e].pc.Idle? && s'.shared.buffered == s.shared.buffered + 1
  {
    s' := GoProbe(c, s, e);
    if s'.ins[e].pc.WakingCircuit? {
      s' := GoProbe(c, s', e);
    }
    s' := CountsAtEndpoint(c, s', e);
  }

  lemma CountsAtEndpoint(c: Config, s: State, e: nat) returns (s': State)
    requires Reach(c, s) && e < |s.ins| && e < |c.maxIn| && s.ins[e].pc == AddingEndpoint(false, 1)
    ensures Reach(c, s') && Only(s, s', e)
    ensures s'.ins[e].pc.Idle? && s'.shared.buffered == s.shared.buffered
  {
    s' := GoProbe(c, s, e);
    if s'.ins[e].pc.WakingBackpressure? {
      s' := GoProbe(c, s', e);
    }
  }

  lemma {:induction false} DeliverMany(c: Config, s: State, e: nat, n: nat) returns (s': State)
    requires Reach(c, s) && HasBeenStarted(s.bp, e) && e < |s.ins| && e < |c.maxIn| && e < |c.batchCap|
    requires c.batchCap[e] > 0 && s.ins[e].pc.Idle?
    ensures Reach(c, s') && Only(s, s', e)
    ensures s'.ins[e].pc.Idle? && s'.shared.buffered == s.shared.buffered + n
  {
    s' := s;
    if n > 0 {
      s' := DeliverMany(c, s, e, n - 1);
      s' := DeliverOne(c, s', e);
    }
  }

  lemma ParksTimed(c: Config, s: State) returns (s': State)
    requires Reach(c, s) && s.circuit.pc == Top(c) && HasRoom(c, s.outs) && 0 < s.shared.buffered <= c.minBatch
    ensures Reach(c, s') && s' == s.(circuit := s.circuit.(pc := ParkedTimed, armed := true))
  {
    s' := ChecksPass(c, s, c.Outputs());
    s' := Go(c, s', ReadBuffered(false));
  }

  /** The circuit thread waits for the delay and leaves no token behind. */
  lemma Dozes(c: Config, s: State) returns (s': State)
    requires Reach(c, s) && s.circuit.pc == Top(c) && HasRoom(c, s.outs) && 0 < s.shared.buffered <= c.minBatch
    ensures Reach(c, s') && s' == s.(circuit := s'.circuit, shared := s.shared.(circuitToken := false))
    ensures s'.circuit.pc.ParkedTimed?
  {
    s' := ParksTimed(c, s);
    s' := GoCircuit(c, s');
    s' := ParksTimed(c, s');
  }

  /** The end of input raises the counter from the minimum, which unparks nobody. */
  lemma EndsOn(c: Config, s: State, e: nat, n: nat) returns (s': State)
    requires Reach(c, s) && HasBeenStarted(s.bp, e) && e < |s.ins| && e < |c.maxIn| && e < |c.batchCap|
    requires n <= c.batchCap[e] && n in c.eoiCounts && s.ins[e].pc.Idle? && s.shared.buffered == c.minBatch
    ensures Reach(c, s') && Only(s, s', e)
    ensures s'.ins[e].pc.AddingEndpoint?
    ensures s'.shared.buffered == s.shared.buffered + n && s'.shared.circuitToken == s.shared.circuitToken
  {
    s' := Go(c, s, Deliver(e, true, n));
    s' := GoProbe(c, s', e);
    s' := GoProbe(c, s', e);
  }

  lemma Oversleep(c: Config, e: nat, n: nat) returns (s: State)
    requires c.Valid() && OutputsHaveRoom(c) && c.minBatch > 0
    requires e < |c.maxIn| && c.maxIn[e] > 0 && 0 < n <= c.batchCap[e] && n in c.eoiCounts
    ensures Reach(c, s) && Oversleeps(c, s)
  {
    s := StartAll(c);
    AtRest(c, s, e);
    var ins := s.ins;
    assert forall d :: 0 <= d < |ins| ==> ins[d].pc.Idle?;
    s := DeliverMany(c, s, e, c.minBatch);
    s := Dozes(c, s);
    s := EndsOn(c, s, e, n);
    assert forall d :: 0 <= d < |s.ins| && d != e ==> s.ins[d] == ins[d];
  }

  lemma ParkedTimedHasRoom(c: Config, s: State)
    requires Reach(c, s) && s.circuit.pc.ParkedTimed?
    ensures OutputsHaveRoom(c)
  {
    ReachInv(c, s);
    forall i | 0 <= i < |c.maxOut| ensures c.maxOut[i] > 0 {
      assert OutputInv(c, s.circuit.pc, s.past, s.outs[i], i);
    }
  }

  lemma ReachAttentive(c: Config, s: State)
    requires Reach(c, s)
    ensures Attentive(c, s)
  {
    var run :| IsRun(c, run) && run[|run| - 1] == s;
    AttentiveRun(c, run, |run| - 1);
  }

  lemma OversleepsOnly(c: Config, s: State)
    requires Reach(c, s) && Oversleeps(c, s)
    ensures OutputsHaveRoom(c) && c.minBatch > 0 && !EndsAreEmpty(c)
  {
    ReachAttentive(c, s);
    ParkedTimedHasRoom(c, s);
  }

  /** A circuit thread that waits for the delay can miss that the minimum is exceeded exactly
      when the circuit can run, there is a minimum, and some endpoint that is started may end
      with records: `eoi` unparks when the minimum is reached, not when it is exceeded. */
  lemma OversleepsExactly(c: Config)
    requires c.Valid()
    ensures (exists s :: Reach(c, s) && Oversleeps(c, s)) <==>
            OutputsHaveRoom(c) && c.minBatch > 0 && !EndsAreEmpty(c)
  {
    if s :| Reach(c, s) && Oversleeps(c, s) {
      OversleepsOnly(c, s);
    }
    if OutputsHaveRoom(c) && c.minBatch > 0 && !EndsAreEmpty(c) {
      var e, n :|
        0 <= e < |c.batchCap| && e < |c.maxIn| && c.maxIn[e] > 0 && n in c.eoiCounts && n <= c.batchCap[e] && n != 0;
      var s := Oversleep(c, e, n);
    }
  }
}
