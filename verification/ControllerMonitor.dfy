/**
 What `pipeline_complete` may rely on after each of its reads, which happen at different
 moments while the other threads keep running.
 */
module ControllerMonitor {
  import opened ControllerModel
  import opened ControllerCounting
  import opened ControllerDrift
  import opened ControllerOutputs
  import opened ControllerProgress
  import opened Sums

  ghost predicate AllEoi(ins: seq<Probe>, except: set<nat>) {
    forall e :: 0 <= e < |ins| && e !in except ==> ins[e].eoi
  }

  /** Every step that consumed a record has had its batch handed to the encoder. */
  ghost predicate Delivered(past: Past, o: Output) {
    forall k :: 0 <= k < |past.steps| && past.steps[k].before < past.steps[k].after ==> k < |o.encoded|
  }

  ghost predicate AllDelivered(past: Past, outs: seq<Output>, except: set<nat>) {
    forall i :: 0 <= i < |outs| && i !in except ==> Delivered(past, outs[i])
  }

  /** All inputs have ended and all their records went through the circuit. */
  ghost predicate Exhausted(g: Shared, ins: seq<Probe>, past: Past) {
    AllEoi(ins, {}) && g.total == past.flushed == past.consumed
  }

  ghost predicate MonitorInv(g: Shared, ins: seq<Probe>, outs: seq<Output>, past: Past, m: MonitorPc) {
    match m
    case ReadingEois(todo) => AllEoi(ins, todo)
    case ReadingTotalInput => AllEoi(ins, {})
    case ReadingProcessed(total) => AllEoi(ins, {}) && total == g.total
    case ReadingFrontiers(total, todo) => Exhausted(g, ins, past) && total == g.total && AllDelivered(past, outs, todo)
    case Complete => Exhausted(g, ins, past) && AllDelivered(past, outs, {})
    case _ => true
  }

  /** Once every endpoint has signalled end of input, everything flushed is in the total. */
  lemma TotalIsFinal(c: Config, s: State)
    requires ProbesInv(c, s) && InputsCounted(s.shared, s.ins, s.past) && AllEoi(s.ins, {})
    ensures s.shared.total == s.past.flushed
  {
    forall e | 0 <= e < |s.ins| ensures AllUntotalled(s.ins)[e] == 0 {
      assert ProbeInv(c, s.circuit.pc, s.ins[e], e);
    }
    SumZero(AllUntotalled(s.ins));
  }

  lemma StepsApart(past: Past, m: nat, k: nat)
    requires StepsOrdered(past) && m < |past.steps| && k < |past.steps|
    ensures m < k ==> past.steps[m].after <= past.steps[k].before
  {
  }

  /** The heart of the matter: an endpoint whose progress label equals the final number of
      input records has encoded the output of every step that consumed a record. */
  lemma LabelMeansDelivered(c: Config, s: State, i: nat)
    requires OutputsInv(c, s) && StepsOrdered(s.past) && i < |s.outs|
    requires s.outs[i].frontier == s.past.flushed == s.past.consumed
    ensures Delivered(s.past, s.outs[i])
  {
    var o := s.outs[i];
    assert OutputInv(c, s.circuit.pc, s.past, o, i);
    if s.past.consumed > 0 {
      var m := if o.pc.Labelling? then |o.encoded| - 2 else |o.encoded| - 1;
      assert 0 <= m && o.encoded[m].frontier == o.frontier;
      assert (o.encoded + Held(o.pc) + o.queue)[m] == BatchOf(s.past, m, i);
      forall k | 0 <= k < |s.past.steps| && s.past.steps[k].before < s.past.steps[k].after
        ensures k < |o.encoded|
      {
        StepsApart(s.past, m, k);
      }
    }
  }

  lemma MonitorReadsProcessed(c: Config, s: State, k: nat)
    requires MonitorInv(s.shared, s.ins, s.outs, s.past, s.monitor) && s.monitor.ReadingProcessed?
    requires s.shared.total == s.past.flushed
    requires s.shared.processed <= s.past.consumed <= s.past.flushed && |s.outs| == |c.maxOut|
    ensures MonitorInv(s.shared, s.ins, s.outs, s.past, MonitorMove(c, s, k))
  {
    assert forall i :: 0 <= i < |s.outs| ==> i in c.Outputs();
  }

  lemma MonitorReadsFrontier(c: Config, s: State, k: nat)
    requires MonitorInv(s.shared, s.ins, s.outs, s.past, s.monitor) && s.monitor.ReadingFrontiers?
    requires MonitorEnabled(s, k)
    requires s.outs[k].frontier == s.shared.total ==> Delivered(s.past, s.outs[k])
    ensures MonitorInv(s.shared, s.ins, s.outs, s.past, MonitorMove(c, s, k))
  {
  }

  lemma MonitorReadsKeep(c: Config, s: State, k: nat)
    requires MonitorInv(s.shared, s.ins, s.outs, s.past, s.monitor) && MonitorEnabled(s, k)
    requires ProbesInv(c, s) && InputsCounted(s.shared, s.ins, s.past)
    requires OutputsInv(c, s) && StepsOrdered(s.past)
    requires s.shared.processed <= s.past.consumed
    ensures MonitorInv(s.shared, s.ins, s.outs, s.past, MonitorMove(c, s, k))
  {
    match s.monitor
    case ReadingProcessed(total) =>
      TotalIsFinal(c, s);
      MonitorReadsProcessed(c, s, k);
    case ReadingFrontiers(total, todo) =>
      if s.outs[k].frontier == total {
        LabelMeansDelivered(c, s, k);
      }
      MonitorReadsFrontier(c, s, k);
    case _ =>
  }

  /** A probe that still acts has not signalled end of input, so the monitor has not
      concluded anything about its endpoint. */
  lemma MonitorProbe(c: Config, s: State, e: nat)
    requires MonitorInv(s.shared, s.ins, s.outs, s.past, s.monitor) && ProbesInv(c, s) && ProbeEnabled(c, s, e)
    ensures var s' := ProbeApply(c, s, e); MonitorInv(s'.shared, s'.ins, s'.outs, s'.past, s'.monitor)
  {
    assert ProbeInv(c, s.circuit.pc, s.ins[e], e);
    assert !s.ins[e].eoi;
  }

  lemma MonitorDeliver(c: Config, s: State, e: nat, eoi: bool, n: nat)
    requires MonitorInv(s.shared, s.ins, s.outs, s.past, s.monitor) && ProbesInv(c, s)
    requires e < |s.ins| && s.ins[e].pc.Idle?
    ensures var s' := DeliverApply(s, e, eoi, n); MonitorInv(s'.shared, s'.ins, s'.outs, s'.past, s'.monitor)
  {
    assert ProbeInv(c, s.circuit.pc, s.ins[e], e);
    assert !s.ins[e].eoi;
  }

  /** A step taken after the inputs are exhausted consumes nothing. */
  lemma MonitorReturn(s: State, after: nat, sizes: seq<nat>)
    requires MonitorInv(s.shared, s.ins, s.outs, s.past, s.monitor)
    requires s.past.consumed <= after <= s.past.flushed
    ensures var s' := ReturnStepApply(s, after, sizes); MonitorInv(s'.shared, s'.ins, s'.outs, s'.past, s'.monitor)
  {
  }

  lemma MonitorOutput(c: Config, s: State, i: nat)
    requires MonitorInv(s.shared, s.ins, s.outs, s.past, s.monitor) && OutputEnabled(c, s, i)
    ensures var s' := OutputApply(c, s, i); MonitorInv(s'.shared, s'.ins, s'.outs, s'.past, s'.monitor)
  {
    assert |OutputMove(c.maxOut[i], s.outs[i]).encoded| >= |s.outs[i].encoded|;
  }

  lemma MonitorCircuit(c: Config, s: State)
    requires MonitorInv(s.shared, s.ins, s.outs, s.past, s.monitor) && CircuitEnabled(s)
    ensures var s' := CircuitApply(c, s); MonitorInv(s'.shared, s'.ins, s'.outs, s'.past, s'.monitor)
  {
  }

  lemma MonitorAnnounce(s: State, i: nat)
    requires MonitorInv(s.shared, s.ins, s.outs, s.past, s.monitor) && s.circuit.pc.Announcing? && CanSend(s, i)
    ensures var s' := AnnounceApply(s, i); MonitorInv(s'.shared, s'.ins, s'.outs, s'.past, s'.monitor)
  {
  }

  lemma MonitorReset(s: State, e: nat)
    requires MonitorInv(s.shared, s.ins, s.outs, s.past, s.monitor) && s.circuit.pc.ResettingEndpoints? && e < |s.ins|
    ensures var s' := ResetEndpointApply(s, e); MonitorInv(s'.shared, s'.ins, s'.outs, s'.past, s'.monitor)
  {
  }
}
