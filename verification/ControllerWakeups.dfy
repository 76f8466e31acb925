/**
 Parked threads: why a thread that is blocked without a token is right to be blocked.
 */
module ControllerWakeups {
  import opened ControllerModel
  import opened ControllerDrift

  /** Every record count that the parser's `eoi` may return, on an endpoint that is ever
      started, wakes a parked circuit thread whenever it has to. */
  ghost predicate EoiSafe(c: Config) {
    forall e, n ::
      0 <= e < |c.batchCap| && e < |c.maxIn| && c.maxIn[e] > 0 && n in c.eoiCounts && n <= c.batchCap[e] ==>
        n == 0 || 0 < c.minBatch <= n
  }

  /** A probe has raised the global counter and is about to unpark the circuit thread. */
  ghost predicate ProbeWaking(ins: seq<Probe>) {
    exists e :: 0 <= e < |ins| && ins[e].pc.WakingCircuit?
  }

  ghost predicate FullWakeable(c: Config, g: Shared, pc: CircuitPc, outs: seq<Output>) {
    pc.ParkedFull? && !g.circuitToken ==>
      && pc.i < |outs| && pc.i < |c.maxOut|
      && (outs[pc.i].buffered >= c.maxOut[pc.i] || outs[pc.i].pc.OutputWaking?)
  }

  ghost predicate EmptyWakeable(g: Shared, pc: CircuitPc, ins: seq<Probe>) {
    pc.ParkedEmpty? && !g.circuitToken ==> g.buffered == 0 || ProbeWaking(ins)
  }

  ghost predicate OutputWakeable(pc: CircuitPc, o: Output, i: nat) {
    o.pc.OutputParked? && !o.token ==> o.queue == [] || (pc.WakingOutput? && pc.i == i)
  }

  ghost predicate Wakeable(c: Config, s: State) {
    && FullWakeable(c, s.shared, s.circuit.pc, s.outs)
    && (EoiSafe(c) ==> EmptyWakeable(s.shared, s.circuit.pc, s.ins))
    && forall i :: 0 <= i < |s.outs| ==> OutputWakeable(s.circuit.pc, s.outs[i], i)
  }

  lemma WakeableProbe(c: Config, s: State, e: nat)
    requires Wakeable(c, s) && ProbesInv(c, s) && ProbeEnabled(c, s, e)
    ensures Wakeable(c, ProbeApply(c, s, e))
  {
    var s' := ProbeApply(c, s, e);
    if EoiSafe(c) && s.circuit.pc.ParkedEmpty? && !s'.shared.circuitToken {
      if ProbeWaking(s.ins) {
        var w :| 0 <= w < |s.ins| && s.ins[w].pc.WakingCircuit?;
        assert w != e && s'.ins[w].pc.WakingCircuit?;
      } else if s.ins[e].pc.AddingBuffered? && s.ins[e].pc.n > 0 {
        assert s'.ins[e].pc.WakingCircuit?;
      }
    }
  }

  lemma WakeableOutput(c: Config, s: State, i: nat)
    requires Wakeable(c, s) && OutputEnabled(c, s, i)
    ensures Wakeable(c, OutputApply(c, s, i))
  {
  }

  lemma WakeableCircuit(c: Config, s: State)
    requires Wakeable(c, s) && CircuitEnabled(s)
    ensures Wakeable(c, CircuitApply(c, s))
  {
    var s' := CircuitApply(c, s);
    assert !s'.circuit.pc.ParkedFull? && !s'.circuit.pc.ParkedEmpty?;
  }

  lemma WakeableAnnounce(c: Config, s: State, i: nat)
    requires Wakeable(c, s) && s.circuit.pc.Announcing? && CanSend(s, i)
    ensures Wakeable(c, AnnounceApply(s, i))
  {
  }

  lemma WakeableDeliver(c: Config, s: State, e: nat, eoi: bool, n: nat)
    requires Wakeable(c, s) && e < |s.ins| && s.ins[e].pc.Idle?
    ensures Wakeable(c, DeliverApply(s, e, eoi, n))
  {
    var s' := DeliverApply(s, e, eoi, n);
    if ProbeWaking(s.ins) {
      var w :| 0 <= w < |s.ins| && s.ins[w].pc.WakingCircuit?;
      assert s'.ins[w].pc.WakingCircuit?;
    }
  }
}
