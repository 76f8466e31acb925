/** Indices in range: what every step keeps about the shape of the state. */
module ControllerShape {
  import opened ControllerModel

  ghost predicate CircuitShape(c: Config, pc: CircuitPc, past: Past) {
    match pc
    case CheckingOutputs(todo) => todo <= c.Outputs() && todo != {}
    case ParkedFull(i) => i in c.Outputs()
    case ResettingEndpoints(todo) => todo <= c.Inputs() && todo != {}
    case StoringProcessed => past.steps != []
    case Announcing(todo) => past.steps != [] && todo <= c.Outputs() && todo != {}
    case Pushing(todo, i) => past.steps != [] && todo <= c.Outputs() && i in todo
    case WakingOutput(todo, i) => past.steps != [] && todo <= c.Outputs() && i in todo
    case _ => true
  }

  ghost predicate BackpressureShape(c: Config, bp: Backpressure) {
    && |bp.commands| == |c.maxIn|
    && |bp.sawFull| == |c.maxIn|
    && bp.paused <= c.Inputs()
    && match bp.pc
       case Scanning(todo) => todo <= c.Inputs() && todo != {}
       case Acting(todo, e, _) => todo <= c.Inputs() && e in todo
       case Pausing(todo) => todo <= c.Inputs() && todo != {}
       case _ => true
  }

  ghost predicate MonitorShape(c: Config, monitor: MonitorPc) {
    match monitor
    case ReadingEois(todo) => todo <= c.Inputs() && todo != {}
    case ReadingFrontiers(_, todo) => todo <= c.Outputs() && todo != {}
    case _ => true
  }

  ghost predicate StepsShape(c: Config, past: Past) {
    forall k :: 0 <= k < |past.steps| ==> |past.steps[k].sizes| == |c.maxOut|
  }

  ghost predicate Shape(c: Config, s: State) {
    && c.Valid()
    && |s.ins| == |c.maxIn|
    && |s.outs| == |c.maxOut|
    && CircuitShape(c, s.circuit.pc, s.past)
    && BackpressureShape(c, s.bp)
    && MonitorShape(c, s.monitor)
    && StepsShape(c, s.past)
  }

  lemma ShapeInit(c: Config, s: State)
    requires Init(c, s)
    ensures Shape(c, s)
  {
  }

  lemma BackpressureShapeMove(c: Config, desired: Mode, bp: Backpressure)
    requires BackpressureShape(c, bp)
    ensures BackpressureShape(c, BackpressureMove(c, desired, bp))
  {
  }

  lemma BackpressureShapeRead(c: Config, s: State, e: nat)
    requires BackpressureShape(c, s.bp) && s.bp.pc.Scanning? && e in s.bp.pc.todo
    requires e < |s.ins| && e < |c.maxIn| && e < |s.bp.sawFull|
    ensures BackpressureShape(c, ReadFullApply(c, s, e).bp)
  {
  }

  lemma BackpressureShapePause(c: Config, s: State, e: nat)
    requires BackpressureShape(c, s.bp) && s.bp.pc.Pausing? && e in s.bp.pc.todo && e < |s.bp.commands|
    ensures BackpressureShape(c, PauseEndpointApply(s, e).bp)
  {
  }

  lemma MonitorShapeMove(c: Config, s: State, k: nat)
    requires MonitorShape(c, s.monitor) && MonitorEnabled(s, k)
    ensures MonitorShape(c, MonitorMove(c, s, k))
  {
  }

  lemma ShapeReturn(c: Config, s: State, after: nat, sizes: seq<nat>)
    requires Shape(c, s) && |sizes| == |c.maxOut|
    ensures Shape(c, ReturnStepApply(s, after, sizes))
  {
  }

  lemma ShapeCircuit(c: Config, s: State)
    requires Shape(c, s) && CircuitEnabled(s)
    ensures Shape(c, CircuitApply(c, s))
  {
  }
}
