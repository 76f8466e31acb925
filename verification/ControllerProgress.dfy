/**
 What the circuit's progress labels mean: the frontier read by the circuit thread, the
 labels of completed steps, and `total_processed_records`.
 */
module ControllerProgress {
  import opened ControllerModel

  /** The circuit thread has read a new frontier that no completed step carries yet. */
  predicate FrontierPending(pc: CircuitPc) {
    pc.WakingBackpressureThread? || pc.CallingStep? || pc.Stepping?
  }

  function LastFrontier(steps: seq<StepRecord>): nat {
    if steps == [] then 0 else steps[|steps| - 1].frontier
  }

  /** Completed steps follow each other, consume what was there when they were labelled,
      and carry labels that never decrease. */
  ghost predicate StepsOrdered(past: Past) {
    && (forall k :: 0 <= k < |past.steps| ==>
          past.steps[k].frontier <= past.steps[k].after && past.steps[k].before <= past.steps[k].after <= past.consumed)
    && (forall k, l :: 0 <= k < l < |past.steps| ==>
          past.steps[k].after <= past.steps[l].before && past.steps[k].frontier <= past.steps[l].frontier)
    && past.consumed <= past.flushed
  }

  ghost predicate Progress(g: Shared, t: Circuit, past: Past) {
    && t.frontier <= g.total
    && (t.pc.Stepping? ==> t.frontier <= t.pc.floor && past.consumed <= t.pc.floor <= past.flushed)
    && (!t.pc.ResettingEndpoints? && !t.pc.ReadingTotal? ==> past.drained <= t.frontier)
    && LastFrontier(past.steps) <= t.frontier
    && (!FrontierPending(t.pc) ==> t.frontier == LastFrontier(past.steps))
    && (!FrontierPending(t.pc) && !t.pc.StoringProcessed? ==> g.processed == t.frontier)
    && g.processed <= LastFrontier(past.steps)
  }

  lemma ProgressCircuit(c: Config, s: State)
    requires Progress(s.shared, s.circuit, s.past) && CircuitEnabled(s)
    requires StepsOrdered(s.past)
    requires s.past.drained + s.shared.buffered <= s.shared.total <= s.past.flushed
    ensures var s' := CircuitApply(c, s); Progress(s'.shared, s'.circuit, s'.past) && StepsOrdered(s'.past)
  {
    ProgressNext(c, s.shared, s.past, s.circuit);
  }

  /** ... where only the reset of the global counter changes what was drained. */
  lemma ProgressNext(c: Config, g: Shared, past: Past, t: Circuit)
    requires Progress(g, t, past) && past.drained + g.buffered <= g.total <= past.flushed && StepsOrdered(past)
    ensures var drained := past.(drained := past.drained + g.buffered, resets := past.resets + 1);
            var past' := if t.pc.ResettingGlobal? then drained else past;
            Progress(CircuitShared(g, t), CircuitNext(c, g, past.flushed, t), past')
  {
  }
}
