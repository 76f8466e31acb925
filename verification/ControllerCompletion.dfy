/**
 Completion: once all inputs have ended, every run of the threads comes to rest, with
 everything processed, provided the buffering delay expires after finitely many looks at it.

 Every step lowers a lexicographic rank.  Its parts are, from the top: whether another
 circuit step is due, what is left of the current circuit step, the work of the output
 threads, whether the buffering delay has been armed, the circuit thread's way to its park,
 the client's pending unpark, and the backpressure thread's way to its park.
 */
module ControllerCompletion {
  import opened ControllerModel
  import opened ControllerShape
  import opened ControllerCounting
  import opened ControllerWakeups
  import opened ControllerTheorems
  import opened ControllerWitnesses
  import opened Sums

  // ---------------------------------------------------------------- the rank

  /** A circuit step is due as long as records are counted. */
  function Due(g: Shared, pc: CircuitPc): nat {
    if g.buffered == 0 then 0 else if pc.ResettingGlobal? then 1 else 2
  }

  /** What is left of the current circuit step. */
  function Rest(c: Config, pc: CircuitPc): nat {
    var n, m := 3 * |c.Outputs()|, |c.Inputs()|;
    match pc
    case ResettingGlobal => n + m + 8
    case ResettingEndpoints(todo) => n + |todo| + 7
    case ReadingTotal => n + 6
    case WakingBackpressureThread => n + 5
    case CallingStep => n + 4
    case Stepping(_) => n + 3
    case StoringProcessed => n + 2
    case Announcing(todo) => 3 * |todo| + 1
    case Pushing(todo, _) => 3 * |todo|
    case WakingOutput(todo, _) => if todo == {} then 0 else 3 * |todo| - 1
    case _ => 0
  }

  function OutputWork(o: Output): nat {
    6 * |o.queue| + (if o.token then 2 else 0) + match o.pc
      case OutputParked => 0
      case Popping => 1
      case OutputWaking => 2
      case Subtracting(_) => 3
      case Labelling(_) => 4
      case Encoding(_) => 5
  }

  function AllWork(outs: seq<Output>): seq<nat> {
    seq(|outs|, i requires 0 <= i < |outs| => OutputWork(outs[i]))
  }

  function Unarmed(g: Shared, t: Circuit): nat {
    if g.buffered > 0 && !t.armed then 1 else 0
  }

  /** The circuit thread's way to its park, and back from it if a token waits. */
  function ToPark(c: Config, g: Shared, pc: CircuitPc): nat {
    var n := |c.Outputs()|;
    (if g.circuitToken then n + 3 else 0) + match pc
      case CheckingOutputs(todo) => |todo| + 1
      case ReadingBuffered => 1
      case ParkedTimed => n + 2
      case _ => 0
  }

  function BackpressureWork(c: Config, g: Shared, bp: Backpressure): nat {
    (if g.backpressureToken then 2 * |c.Inputs()| + 2 else 0) + ScanWork(c, bp.pc)
  }

  function ScanWork(c: Config, pc: BackpressurePc): nat {
    match pc
    case Looking => 2 * |c.Inputs()| + 1
    case Scanning(todo) => 2 * |todo|
    case Acting(todo, _, _) => if todo == {} then 0 else 2 * |todo| - 1
    case Pausing(todo) => |todo|
    case BackpressureParked => 0
  }

  predicate Less(x': nat, x: nat, otherwise: bool) {
    x' < x || (x' == x && otherwise)
  }

  /** The ranks of the two states compare at their first difference. */
  ghost predicate Lower(c: Config, s': State, s: State) {
    Less(Due(s'.shared, s'.circuit.pc), Due(s.shared, s.circuit.pc),
    Less(Rest(c, s'.circuit.pc), Rest(c, s.circuit.pc),
    Less(Sum(AllWork(s'.outs)), Sum(AllWork(s.outs)),
    Less(Unarmed(s'.shared, s'.circuit), Unarmed(s.shared, s.circuit),
    Less(ToPark(c, s'.shared, s'.circuit.pc), ToPark(c, s.shared, s.circuit.pc),
    Less(if s'.clientWaking then 1 else 0, if s.clientWaking then 1 else 0,
         BackpressureWork(c, s'.shared, s'.bp) < BackpressureWork(c, s.shared, s.bp)))))))
  }

  // ---------------------------------------------------------------- every thread lowers it

  /** All inputs have ended. */
  ghost predicate InputsEnded(ins: seq<Probe>) {
    forall e :: 0 <= e < |ins| ==> ins[e].pc.Finished?
  }

  /** No probe is in the middle of an update. */
  ghost predicate ProbesAtRest(ins: seq<Probe>) {
    forall e :: 0 <= e < |ins| ==> ins[e].pc.Idle? || ins[e].pc.Finished?
  }

  /** A step of one of the controller's threads, or the unpark that a client owes. */
  predicate IsThreadStep(step: Step) {
    !step.Deliver? && !step.ClientSets? && !step.MonitorCalls? && !step.MonitorReads?
  }

  /** The circuit thread finds that the buffering delay is armed and has not expired. */
  predicate Unexpired(c: Config, s: State, step: Step) {
    step == ReadBuffered(false) && s.circuit.armed && s.shared.buffered <= c.minBatch
  }

  lemma SmallerSet(todo: set<nat>, i: nat)
    requires i in todo
    ensures |todo - {i}| == |todo| - 1
  {
  }

  /** What is left of a circuit step shrinks with every step inside it. */
  lemma RestShrinks(c: Config, g: Shared, past: Past, t: Circuit)
    requires CircuitShape(c, t.pc, past)
    ensures var t' := CircuitNext(c, g, past.flushed, t);
            if Rest(c, t.pc) == 0 then Rest(c, t'.pc) == 0 else t'.pc == t.pc || Rest(c, t'.pc) < Rest(c, t.pc)
  {
    if t.pc.WakingOutput? {
      SmallerSet(t.pc.todo, t.pc.i);
      AnnounceRest(c, t.pc.todo - {t.pc.i});
    } else if t.pc.StoringProcessed? {
      AnnounceRest(c, c.Outputs());
    }
  }

  lemma AnnounceRest(c: Config, todo: set<nat>)
    ensures Rest(c, NextAnnounce(c, todo)) <= 3 * |todo| + 1
  {
  }

  lemma CircuitStepLowers(c: Config, s: State)
    requires CircuitEnabled(s) && CircuitShape(c, s.circuit.pc, s.past)
    ensures Lower(c, CircuitApply(c, s), s)
  {
    RestShrinks(c, s.shared, s.past, s.circuit);
  }

  lemma CheckOutputLowers(c: Config, s: State, i: nat)
    requires s.circuit.pc.CheckingOutputs? && i in s.circuit.pc.todo && i < |s.outs| && i < |c.maxOut|
    ensures Lower(c, CheckOutputApply(c, s, i), s)
  {
    SmallerSet(s.circuit.pc.todo, i);
  }

  lemma ReadBufferedLowers(c: Config, s: State, expired: bool)
    requires s.circuit.pc.ReadingBuffered? && (s.circuit.armed ==> s.shared.buffered > 0)
    requires (expired ==> s.circuit.armed) && !Unexpired(c, s, ReadBuffered(expired))
    ensures Lower(c, ReadBufferedApply(c, s, expired), s)
  {
  }

  lemma ResetLowers(c: Config, s: State, e: nat)
    requires s.circuit.pc.ResettingEndpoints? && e in s.circuit.pc.todo && e < |s.ins|
    ensures Lower(c, ResetEndpointApply(s, e), s)
  {
    SmallerSet(s.circuit.pc.todo, e);
  }

  lemma ReturnLowers(c: Config, s: State, after: nat, sizes: seq<nat>)
    requires s.circuit.pc.Stepping?
    ensures Lower(c, ReturnStepApply(s, after, sizes), s)
  {
  }

  lemma AnnounceLowers(c: Config, s: State, i: nat)
    requires s.circuit.pc.Announcing? && CanSend(s, i)
    ensures Lower(c, AnnounceApply(s, i), s)
  {
  }

  lemma CircuitMoveLowers(c: Config, s: State, step: Step)
    requires Shape(c, s) && Counting(s) && Enabled(c, s, step)
    requires step.CheckOutput? || step.Announce? || step.ResetEndpoint? || step.ReadBuffered? || step.ReturnStep? ||
        step.CircuitStep?
    requires !Unexpired(c, s, step)
    ensures Lower(c, Apply(c, s, step), s)
  {
    match step
    case CheckOutput(i) => CheckOutputLowers(c, s, i);
    case Announce(i) => AnnounceLowers(c, s, i);
    case ResetEndpoint(e) => ResetLowers(c, s, e);
    case ReadBuffered(expired) => ReadBufferedLowers(c, s, expired);
    case ReturnStep(after, sizes) => ReturnLowers(c, s, after, sizes);
    case CircuitStep => CircuitStepLowers(c, s);
  }

  /** Where the probes stand. */
  function Pcs(ins: seq<Probe>): seq<ProbePc> {
    seq(|ins|, e requires 0 <= e < |ins| => ins[e].pc)
  }

  lemma OutputStepLowers(c: Config, s: State, i: nat)
    requires OutputEnabled(c, s, i)
    ensures Lower(c, OutputApply(c, s, i), s)
  {
    var s' := OutputApply(c, s, i);
    assert AllWork(s'.outs) == AllWork(s.outs)[i := OutputWork(s'.outs[i])];
    SumUpdate(AllWork(s.outs), i, OutputWork(s'.outs[i]));
  }

  lemma ScanShrinks(c: Config, bp: Backpressure, todo: set<nat>)
    ensures ScanWork(c, NextScan(bp, todo).pc) <= 2 * |todo| && ScanWork(c, NextPause(bp, todo).pc) <= |todo|
  {
  }

  lemma BackpressureMoveLowers(c: Config, s: State, step: Step)
    requires Shape(c, s) && Enabled(c, s, step)
    requires step.ReadFull? || step.PauseEndpoint? || step.BackpressureStep?
    ensures var s' := Apply(c, s, step);
            s' == s.(bp := s'.bp, shared := s.shared.(backpressureToken := s'.shared.backpressureToken))
    ensures BackpressureWork(c, Apply(c, s, step).shared, Apply(c, s, step).bp) < BackpressureWork(c, s.shared, s.bp)
  {
    match step
    case PauseEndpoint(e) =>
      var todo := s.bp.pc.todo;
      SmallerSet(todo, e);
      ScanShrinks(c, if e !in s.bp.paused then Send(s.bp, e, Pause) else s.bp, todo - {e});
    case ReadFull(_) =>
    case BackpressureStep => BackpressureStepLowers(c, s);
  }

  lemma BackpressureStepLowers(c: Config, s: State)
    requires BackpressureShape(c, s.bp) && BackpressureEnabled(s)
    ensures var s' := BackpressureApply(c, s);
            BackpressureWork(c, s'.shared, s'.bp) < BackpressureWork(c, s.shared, s.bp)
  {
    var bp := s.bp;
    match bp.pc
    case Acting(todo, e, full) =>
      SmallerSet(todo, e);
      ScanShrinks(c, Obey(bp, e, full), todo - {e});
    case Looking =>
      ScanShrinks(c, bp.(sawRunning := true), c.Inputs());
      ScanShrinks(c, bp.(sawRunning := false), if bp.globalPause then {} else c.Inputs());
    case _ =>
  }

  lemma OnlyBackpressure(c: Config, s: State, s': State)
    requires s' == s.(bp := s'.bp, shared := s.shared.(backpressureToken := s'.shared.backpressureToken))
    requires BackpressureWork(c, s'.shared, s'.bp) < BackpressureWork(c, s.shared, s.bp)
    ensures Lower(c, s', s)
  {
  }

  /** Every step of a thread lowers the rank, unless it finds the delay unexpired. */
  lemma StepLowers(c: Config, s: State, step: Step)
    requires Shape(c, s) && Counting(s) && ProbesAtRest(s.ins)
    requires Enabled(c, s, step) && IsThreadStep(step) && !Unexpired(c, s, step)
    ensures Lower(c, Apply(c, s, step), s)
  {
    match step
    case OutputStep(i) => OutputStepLowers(c, s, i);
    case ClientWakes =>
    case ReadFull(_) => BackpressureMoveLowers(c, s, step); OnlyBackpressure(c, s, Apply(c, s, step));
    case PauseEndpoint(_) => BackpressureMoveLowers(c, s, step); OnlyBackpressure(c, s, Apply(c, s, step));
    case BackpressureStep => BackpressureMoveLowers(c, s, step); OnlyBackpressure(c, s, Apply(c, s, step));
    case _ => CircuitMoveLowers(c, s, step);
  }

  /** No thread moves a probe that is at rest. */
  lemma ProbesStay(c: Config, s: State, step: Step)
    requires ProbesAtRest(s.ins) && Enabled(c, s, step) && IsThreadStep(step)
    ensures Pcs(Apply(c, s, step).ins) == Pcs(s.ins)
  {
  }

  lemma SamePcs(ins: seq<Probe>, ins': seq<Probe>)
    requires Pcs(ins') == Pcs(ins)
    ensures |ins'| == |ins| && forall e :: 0 <= e < |ins| ==> ins'[e].pc == ins[e].pc
  {
    assert |ins| == |Pcs(ins)| == |Pcs(ins')| == |ins'|;
    forall e | 0 <= e < |ins'| ensures ins'[e].pc == ins[e].pc {
      assert Pcs(ins')[e] == Pcs(ins)[e];
    }
  }

  // ---------------------------------------------------------------- every run completes

  /** If nothing but an unexpired look is possible, an expired one is possible too. */
  lemma MovesOrStuck(c: Config, s: State) returns (step: Step, stuck: bool)
    ensures if stuck then Stuck(c, s) else Enabled(c, s, step) && IsThreadStep(step) && !Unexpired(c, s, step)
  {
    stuck := false;
    if any :| Enabled(c, s, any) && IsThreadStep(any) {
      step := if any.ReadBuffered? then ReadBuffered(s.circuit.armed) else any;
    } else {
      step, stuck := ClientWakes, true;
    }
  }

  /** A step of some thread.  `looks` bounds how often the delay is still found unexpired. */
  ghost predicate Moves(c: Config, s: State, s': State, looks: nat, looks': nat) {
    && looks' <= looks
    && exists step ::
         && Enabled(c, s, step) && IsThreadStep(step) && s' == Apply(c, s, step)
         && (Unexpired(c, s, step) ==> looks' < looks)
  }

  /** An endless record of a run of the threads; it repeats its last state if it has one. */
  ghost predicate IsHistory(c: Config, f: nat -> State, looks: nat -> nat) {
    && Reach(c, f(0)) && InputsEnded(f(0).ins)
    && forall k: nat :: Moves(c, f(k), f(k + 1), looks(k), looks(k + 1)) || (Stuck(c, f(k)) && f(k + 1) == f(k))
  }

  lemma MovesKeep(c: Config, s: State, s': State, looks: nat, looks': nat)
    requires Reach(c, s) && InputsEnded(s.ins) && Moves(c, s, s', looks, looks')
    ensures Reach(c, s') && InputsEnded(s'.ins) && looks' <= looks && (looks' < looks || Lower(c, s', s))
  {
    var step :|
      && Enabled(c, s, step) && IsThreadStep(step) && s' == Apply(c, s, step)
      && (Unexpired(c, s, step) ==> looks' < looks);
    var _ := Go(c, s, step);
    ProbesStay(c, s, step);
    SamePcs(s.ins, s'.ins);
    if !Unexpired(c, s, step) {
      ReachStepLowers(c, s, step);
    }
  }

  lemma ReachStepLowers(c: Config, s: State, step: Step)
    requires Reach(c, s) && ProbesAtRest(s.ins)
    requires Enabled(c, s, step) && IsThreadStep(step) && !Unexpired(c, s, step)
    ensures Lower(c, Apply(c, s, step), s)
  {
    ReachInv(c, s);
    StepLowers(c, s, step);
  }

  lemma {:induction false} RunStops(c: Config, f: nat -> State, looks: nat -> nat, k: nat) returns (m: nat)
    requires IsHistory(c, f, looks) && Reach(c, f(k)) && InputsEnded(f(k).ins)
    ensures Reach(c, f(m)) && InputsEnded(f(m).ins) && Stuck(c, f(m))
    decreases looks(k), Due(f(k).shared, f(k).circuit.pc), Rest(c, f(k).circuit.pc), Sum(AllWork(f(k).outs)),
              Unarmed(f(k).shared, f(k).circuit), ToPark(c, f(k).shared, f(k).circuit.pc),
              if f(k).clientWaking then 1 else 0, BackpressureWork(c, f(k).shared, f(k).bp)
  {
    if Stuck(c, f(k)) {
      m := k;
    } else {
      MovesKeep(c, f(k), f(k + 1), looks(k), looks(k + 1));
      m := RunStops(c, f, looks, k + 1);
    }
  }

  /** Every run of the threads from a reachable state with ended inputs reaches a state in
      which `pipeline_complete` is true. */
  lemma EveryRunCompletes(c: Config, f: nat -> State, looks: nat -> nat) returns (m: nat)
    requires IsHistory(c, f, looks) && EoiSafe(c) && OutputsHaveRoom(c)
    ensures PipelineComplete(f(m)) && Stuck(c, f(m))
  {
    m := RunStops(c, f, looks, 0);
    RestIsComplete(c, f(m));
  }

  lemma RestIsComplete(c: Config, s: State)
    requires Reach(c, s) && Stuck(c, s) && InputsEnded(s.ins) && EoiSafe(c) && OutputsHaveRoom(c)
    ensures PipelineComplete(s)
  {
    var run :| IsRun(c, run) && run[|run| - 1] == s;
    StuckMeansComplete(c, run, |run| - 1);
  }

  // ---------------------------------------------------------------- such runs exist

  /** A circuit thread that parked for want of input still has no input. */
  predicate QuietPark(s: State) {
    s.circuit.pc.ParkedEmpty? ==> s.shared.buffered == 0
  }

  lemma QuietParkStays(c: Config, s: State, step: Step)
    requires ProbesAtRest(s.ins) && QuietPark(s) && Enabled(c, s, step) && IsThreadStep(step)
    ensures QuietPark(Apply(c, s, step))
  {
  }

  lemma StartedStays(c: Config, s: State, step: Step, e: nat)
    requires Enabled(c, s, step) && HasBeenStarted(s.bp, e)
    ensures HasBeenStarted(Apply(c, s, step).bp, e)
  {
  }

  /** From every reachable state with the probes at rest some run brings all threads to rest. */
  lemma {:induction false} ComesToRest(c: Config, s: State, e: nat) returns (s': State)
    requires Reach(c, s) && ProbesAtRest(s.ins)
    ensures Reach(c, s') && Pcs(s'.ins) == Pcs(s.ins) && Stuck(c, s')
    ensures QuietPark(s) ==> QuietPark(s')
    ensures HasBeenStarted(s.bp, e) ==> HasBeenStarted(s'.bp, e)
    decreases Due(s.shared, s.circuit.pc), Rest(c, s.circuit.pc), Sum(AllWork(s.outs)), Unarmed(s.shared, s.circuit),
              ToPark(c, s.shared, s.circuit.pc), if s.clientWaking then 1 else 0, BackpressureWork(c, s.shared, s.bp)
  {
    var step, stuck := MovesOrStuck(c, s);
    if stuck {
      s' := s;
    } else {
      var next := RestStep(c, s, step, e);
      s' := ComesToRest(c, next, e);
    }
  }

  lemma RestStep(c: Config, s: State, step: Step, e: nat) returns (s': State)
    requires Reach(c, s) && ProbesAtRest(s.ins)
    requires Enabled(c, s, step) && IsThreadStep(step) && !Unexpired(c, s, step)
    ensures Reach(c, s') && Lower(c, s', s) && Pcs(s'.ins) == Pcs(s.ins) && ProbesAtRest(s'.ins)
    ensures QuietPark(s) ==> QuietPark(s')
    ensures HasBeenStarted(s.bp, e) ==> HasBeenStarted(s'.bp, e)
  {
    s' := Go(c, s, step);
    ReachStepLowers(c, s, step);
    ProbesStay(c, s, step);
    SamePcs(s.ins, s'.ins);
    if QuietPark(s) {
      QuietParkStays(c, s, step);
    }
    if HasBeenStarted(s.bp, e) {
      StartedStays(c, s, step, e);
    }
  }

  /** So no reachable state with ended inputs is a dead end. */
  lemma CanComplete(c: Config, s: State) returns (s': State)
    requires Reach(c, s) && InputsEnded(s.ins) && EoiSafe(c) && OutputsHaveRoom(c)
    ensures Reach(c, s') && PipelineComplete(s')
  {
    s' := ComesToRest(c, s, 0);
    SamePcs(s.ins, s'.ins);
    RestIsComplete(c, s');
  }
}
