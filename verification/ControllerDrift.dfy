/**
 What each input endpoint's counter means: how far it may drift from the global one.
 */
module ControllerDrift {
  import opened ControllerModel

  predicate Carries(pc: ProbePc) {
    pc.AddingTotal? || pc.AddingBuffered? || pc.WakingCircuit? || pc.AddingEndpoint?
  }

  /** Records of the batch in progress that the global counter holds since its last reset
      and the endpoint's counter does not hold yet. */
  function Fresh(p: Probe): nat {
    if (p.pc.WakingCircuit? || p.pc.AddingEndpoint?) && !p.straddling then p.pc.n else 0
  }

  /** The reset of endpoint `e` is still to come in the current `consume_buffered_inputs`. */
  predicate ResetDue(pc: CircuitPc, e: nat) {
    pc.ResettingEndpoints? && e in pc.todo
  }

  ghost predicate ProbeInv(c: Config, pc: CircuitPc, p: Probe, e: nat) {
    && c.Valid() && e < |c.maxIn|
    && (Carries(p.pc) ==> c.maxIn[e] > 0 && p.pc.n <= c.batchCap[e] && (p.pc.eoi ==> p.pc.n in c.eoiCounts))
    && p.late <= c.batchCap[e]
    && (p.straddling ==> (p.pc.WakingCircuit? || p.pc.AddingEndpoint?) && p.late == 0)
    && (p.eoi <==> p.pc.Finished?)
    && Fresh(p) <= p.own
    && (!ResetDue(pc, e) ==> p.buffered + Fresh(p) <= p.own + p.late)
  }

  ghost predicate ProbesInv(c: Config, s: State) {
    && |s.ins| == |c.maxIn|
    && forall e :: 0 <= e < |s.ins| ==> ProbeInv(c, s.circuit.pc, s.ins[e], e)
  }

  lemma ProbesInit(c: Config, s: State)
    requires Init(c, s)
    ensures ProbesInv(c, s)
  {
  }

  lemma ProbeMoveKeeps(c: Config, pc: CircuitPc, buffered: nat, p: Probe, e: nat)
    requires ProbeInv(c, pc, p, e)
    ensures ProbeInv(c, pc, ProbeMove(c, buffered, c.maxIn[e], p), e)
  {
  }

  lemma ProbesProbe(c: Config, s: State, e: nat)
    requires ProbesInv(c, s) && ProbeEnabled(c, s, e)
    ensures ProbesInv(c, ProbeApply(c, s, e))
  {
    ProbeMoveKeeps(c, s.circuit.pc, s.shared.buffered, s.ins[e], e);
  }

  lemma ProbesResetGlobal(c: Config, s: State)
    requires ProbesInv(c, s) && s.circuit.pc.ResettingGlobal?
    ensures ProbesInv(c, CircuitApply(c, s))
  {
    var s' := CircuitApply(c, s);
    forall e | 0 <= e < |s.ins| ensures ProbeInv(c, s'.circuit.pc, s'.ins[e], e) {
      assert e in c.Inputs();
    }
  }

  lemma ProbesCircuit(c: Config, s: State)
    requires ProbesInv(c, s) && CircuitEnabled(s) && !s.circuit.pc.ResettingGlobal?
    ensures ProbesInv(c, CircuitApply(c, s))
  {
    var s' := CircuitApply(c, s);
    assert s'.ins == s.ins && !s'.circuit.pc.ResettingEndpoints?;
  }

  lemma ProbesReset(c: Config, s: State, e: nat)
    requires ProbesInv(c, s) && s.circuit.pc.ResettingEndpoints? && e in s.circuit.pc.todo && e < |s.ins|
    ensures ProbesInv(c, ResetEndpointApply(s, e))
  {
  }
}
