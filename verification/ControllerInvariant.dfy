/**
 The invariant of the whole system: it holds initially and every step of every thread
 keeps it, so it holds in every state of every run.
 */
module ControllerInvariant {
  import opened ControllerModel
  import opened ControllerShape
  import opened ControllerCounting
  import opened ControllerProgress
  import opened ControllerOutputs
  import opened ControllerDrift
  import opened ControllerWakeups
  import opened ControllerMonitor
  import opened ControllerBackpressure

  ghost predicate Flow(s: State) {
    Counting(s) && Progress(s.shared, s.circuit, s.past) && StepsOrdered(s.past)
  }

  ghost predicate Watched(s: State) {
    MonitorInv(s.shared, s.ins, s.outs, s.past, s.monitor)
  }

  ghost predicate Commanded(c: Config, s: State) {
    CommandsInv(c, s.bp) && ScanInv(c, s.bp) && LimitsInv(c, s.bp)
  }

  ghost predicate Inv(c: Config, s: State) {
    && Shape(c, s)
    && Flow(s)
    && OutputsInv(c, s)
    && ProbesInv(c, s)
    && Wakeable(c, s)
    && Watched(s)
    && Commanded(c, s)
    && Synced(c, s)
  }

  lemma InvInit(c: Config, s: State)
    requires Init(c, s)
    ensures Inv(c, s)
  {
    ShapeInit(c, s);
    CountingInit(c, s);
    OutputsInit(c, s);
    ProbesInit(c, s);
  }

  // ---------------------------------------------------------------- one bundle at a time

  lemma ShapeStep(c: Config, s: State, step: Step)
    requires Shape(c, s) && Enabled(c, s, step)
    ensures Shape(c, Apply(c, s, step))
  {
    match step
    case CircuitStep => ShapeCircuit(c, s);
    case BackpressureStep => BackpressureShapeMove(c, s.shared.desired, s.bp);
    case ReadFull(e) => BackpressureShapeRead(c, s, e);
    case PauseEndpoint(e) => BackpressureShapePause(c, s, e);
    case MonitorReads(k) => MonitorShapeMove(c, s, k);
    case ReturnStep(after, sizes) => ShapeReturn(c, s, after, sizes);
    case _ => ShapeQuiet(c, s, Apply(c, s, step));
  }

  /** Steps that change no set of endpoints but those of the circuit thread's checks. */
  lemma ShapeQuiet(c: Config, s: State, s': State)
    requires Shape(c, s) && |s'.ins| == |s.ins| && |s'.outs| == |s.outs|
    requires s'.bp == s.bp && s'.past.steps == s.past.steps
    requires CircuitShape(c, s'.circuit.pc, s.past) && MonitorShape(c, s'.monitor)
    ensures Shape(c, s')
  {
  }

  lemma FlowDeliver(s: State, e: nat, eoi: bool, n: nat)
    requires Flow(s) && e < |s.ins| && s.ins[e].pc.Idle?
    ensures Flow(DeliverApply(s, e, eoi, n))
  {
    UpdateSums(s.ins, e, s.ins[e].(pc := AddingTotal(eoi, n)));
  }

  lemma FlowProbe(c: Config, s: State, e: nat)
    requires Flow(s) && ProbeEnabled(c, s, e)
    ensures Flow(ProbeApply(c, s, e))
  {
    ProbeCounted(c, s.shared, s.ins, s.past, e, c.maxIn[e]);
  }

  lemma CountingCircuit(c: Config, s: State)
    requires Counting(s) && CircuitEnabled(s) && !s.circuit.pc.ResettingGlobal?
    ensures Counting(CircuitApply(c, s))
  {
    assert CircuitApply(c, s).ins == s.ins;
  }

  lemma FlowCircuit(c: Config, s: State)
    requires Flow(s) && CircuitEnabled(s)
    ensures Flow(CircuitApply(c, s))
  {
    ProgressCircuit(c, s);
    if s.circuit.pc.ResettingGlobal? {
      ResetCounted(s.shared, s.ins, s.past);
    } else {
      CountingCircuit(c, s);
    }
  }

  lemma FlowReturn(s: State, after: nat, sizes: seq<nat>)
    requires Flow(s) && s.circuit.pc.Stepping? && s.circuit.pc.floor <= after <= s.past.flushed
    ensures Flow(ReturnStepApply(s, after, sizes))
  {
  }

  lemma FlowReset(s: State, e: nat)
    requires Flow(s) && s.circuit.pc.ResettingEndpoints? && e < |s.ins|
    ensures Flow(ResetEndpointApply(s, e))
  {
    UpdateSums(s.ins, e, s.ins[e].(buffered := 0));
  }

  /** Steps that touch no input counter. */
  lemma FlowQuiet(s: State, s': State)
    requires Flow(s)
    requires s'.ins == s.ins && s'.past == s.past && s'.circuit == s.circuit
    requires s'.shared.total == s.shared.total && s'.shared.buffered == s.shared.buffered
    requires s'.shared.processed == s.shared.processed
    ensures Flow(s')
  {
  }

  lemma FlowChecks(c: Config, s: State, step: Step)
    requires Flow(s) && Enabled(c, s, step) && (step.CheckOutput? || step.ReadBuffered? || step.Announce?)
    ensures Flow(Apply(c, s, step))
  {
    assert Apply(c, s, step).ins == s.ins;
  }

  lemma FlowStep(c: Config, s: State, step: Step)
    requires Flow(s) && Enabled(c, s, step)
    ensures Flow(Apply(c, s, step))
  {
    match step
    case Deliver(e, eoi, n) => FlowDeliver(s, e, eoi, n);
    case ProbeStep(e) => FlowProbe(c, s, e);
    case CircuitStep => FlowCircuit(c, s);
    case ResetEndpoint(e) => FlowReset(s, e);
    case ReturnStep(after, sizes) => FlowReturn(s, after, sizes);
    case CheckOutput(_) => FlowChecks(c, s, step);
    case ReadBuffered(_) => FlowChecks(c, s, step);
    case Announce(_) => FlowChecks(c, s, step);
    case _ => FlowQuiet(s, Apply(c, s, step));
  }

  /** Steps that send nothing and do not use up the room the circuit thread has seen. */
  lemma OutputsQuiet(c: Config, s: State, s': State)
    requires OutputsInv(c, s) && s'.outs == s.outs && s'.past.steps == s.past.steps
    requires forall i :: 0 <= i < |s.outs| ==>
               && Unsent(s.circuit.pc, i) == Unsent(s'.circuit.pc, i)
               && Announced(s.circuit.pc, i) == Announced(s'.circuit.pc, i)
               && (RoomSeen(s'.circuit.pc, i) ==> RoomSeen(s.circuit.pc, i))
    ensures OutputsInv(c, s')
  {
    forall i | 0 <= i < |s.outs| ensures OutputInv(c, s'.circuit.pc, s'.past, s'.outs[i], i) {
      PcKeeps(c, s.circuit.pc, s'.circuit.pc, s.past, s'.past, s.outs[i], s'.outs[i], i);
    }
  }

  lemma OutputsStep(c: Config, s: State, step: Step)
    requires Shape(c, s) && OutputsInv(c, s) && Enabled(c, s, step)
    ensures OutputsInv(c, Apply(c, s, step))
  {
    match step
    case OutputStep(i) => OutputsOutput(c, s, i);
    case CheckOutput(i) => OutputsCheck(c, s, i);
    case ReturnStep(after, sizes) => OutputsReturn(c, s, after, sizes);
    case Announce(i) => OutputsAnnounce(c, s, i);
    case CircuitStep =>
      if s.circuit.pc.Pushing? {
        OutputsPush(c, s);
      } else {
        OutputsCircuit(c, s);
      }
    case _ => OutputsQuiet(c, s, Apply(c, s, step));
  }

  lemma ProbesStep(c: Config, s: State, step: Step)
    requires Shape(c, s) && LimitsInv(c, s.bp) && ProbesInv(c, s) && Enabled(c, s, step)
    ensures ProbesInv(c, Apply(c, s, step))
  {
    match step
    case ProbeStep(e) => ProbesProbe(c, s, e);
    case ResetEndpoint(e) => ProbesReset(c, s, e);
    case CircuitStep =>
      if s.circuit.pc.ResettingGlobal? {
        ProbesResetGlobal(c, s);
      } else {
        ProbesCircuit(c, s);
      }
    case _ =>
  }

  lemma WakeableReset(c: Config, s: State, e: nat)
    requires Wakeable(c, s) && s.circuit.pc.ResettingEndpoints? && e < |s.ins|
    ensures Wakeable(c, ResetEndpointApply(s, e))
  {
  }

  lemma WakeableStep(c: Config, s: State, step: Step)
    requires Shape(c, s) && ProbesInv(c, s) && Wakeable(c, s) && Enabled(c, s, step)
    ensures Wakeable(c, Apply(c, s, step))
  {
    match step
    case Deliver(e, eoi, n) => WakeableDeliver(c, s, e, eoi, n);
    case ProbeStep(e) => WakeableProbe(c, s, e);
    case OutputStep(i) => WakeableOutput(c, s, i);
    case Announce(i) => WakeableAnnounce(c, s, i);
    case ResetEndpoint(e) => WakeableReset(c, s, e);
    case CircuitStep => WakeableCircuit(c, s);
    case _ =>
  }

  lemma WatchedStep(c: Config, s: State, step: Step)
    requires Shape(c, s) && Flow(s) && OutputsInv(c, s) && ProbesInv(c, s) && Watched(s) && Enabled(c, s, step)
    ensures Watched(Apply(c, s, step))
  {
    match step
    case Deliver(e, eoi, n) => MonitorDeliver(c, s, e, eoi, n);
    case ProbeStep(e) => MonitorProbe(c, s, e);
    case OutputStep(i) => MonitorOutput(c, s, i);
    case Announce(i) => MonitorAnnounce(s, i);
    case ResetEndpoint(e) => MonitorReset(s, e);
    case ReturnStep(after, sizes) => MonitorReturn(s, after, sizes);
    case CircuitStep => MonitorCircuit(c, s);
    case MonitorReads(k) => MonitorReadsKeep(c, s, k);
    case _ =>
  }

  lemma CommandedStep(c: Config, s: State, step: Step)
    requires Shape(c, s) && Commanded(c, s) && Enabled(c, s, step)
    ensures Commanded(c, Apply(c, s, step))
  {
    match step
    case ReadFull(e) => CommandsReadFull(c, s, e);
    case PauseEndpoint(e) =>
      CommandsPause(c, s, e);
      LimitsPause(c, s, e);
    case BackpressureStep =>
      LimitsMove(c, s.shared.desired, s.bp);
      CommandsMove(c, s.shared.desired, s.bp);
      ScanMove(c, s.shared.desired, s.bp);
    case _ =>
      assert Apply(c, s, step).bp == s.bp;
  }

  lemma SyncedOther(c: Config, s: State, s': State)
    requires Synced(c, s)
    requires s'.ins == s.ins && s'.bp == s.bp
    requires s'.shared.desired == s.shared.desired || s'.clientWaking
    requires s.shared.backpressureToken || (s.clientWaking && !s'.clientWaking) ==> s'.shared.backpressureToken
    requires s'.circuit == s.circuit ||
        (!s.circuit.pc.ResettingEndpoints? && !s.circuit.pc.ReadingTotal? && !s.circuit.pc.WakingBackpressureThread?)
    ensures Synced(c, s')
  {
  }

  lemma SyncedStep(c: Config, s: State, step: Step)
    requires Shape(c, s) && Commanded(c, s) && Synced(c, s) && Enabled(c, s, step)
    ensures Synced(c, Apply(c, s, step))
  {
    match step
    case Deliver(e, eoi, n) => SyncedDeliver(c, s, e, eoi, n);
    case ProbeStep(e) => SyncedProbe(c, s, e);
    case ResetEndpoint(e) => SyncedReset(c, s, e);
    case ReadFull(e) => SyncedReadFull(c, s, e);
    case PauseEndpoint(e) => SyncedPause(c, s, e);
    case BackpressureStep => SyncedBackpressure(c, s);
    case CircuitStep => SyncedCircuit(c, s);
    case _ => SyncedOther(c, s, Apply(c, s, step));
  }

  lemma InvStep(c: Config, s: State, step: Step)
    requires Inv(c, s) && Enabled(c, s, step)
    ensures Inv(c, Apply(c, s, step))
  {
    ShapeStep(c, s, step);
    FlowStep(c, s, step);
    OutputsStep(c, s, step);
    ProbesStep(c, s, step);
    WakeableStep(c, s, step);
    WatchedStep(c, s, step);
    CommandedStep(c, s, step);
    SyncedStep(c, s, step);
  }

  lemma InvNext(c: Config, s: State, s': State)
    requires Inv(c, s) && Next(c, s, s')
    ensures Inv(c, s')
  {
    var step :| Enabled(c, s, step) && s' == Apply(c, s, step);
    InvStep(c, s, step);
  }

  /** The invariant holds at every moment of every run. */
  lemma {:induction false} InvRun(c: Config, run: seq<State>, k: nat)
    requires IsRun(c, run) && k < |run|
    ensures Inv(c, run[k])
  {
    if k == 0 {
      InvInit(c, run[0]);
    } else {
      InvRun(c, run, k - 1);
      assert StepAt(c, run, k - 1);
      InvNext(c, run[k - 1], run[k]);
    }
  }

  lemma NextOf(c: Config, run: seq<State>, k: nat)
    requires IsRun(c, run) && k + 1 < |run|
    ensures Inv(c, run[k]) && Next(c, run[k], run[k + 1])
  {
    InvRun(c, run, k);
    assert StepAt(c, run, k);
  }
}
