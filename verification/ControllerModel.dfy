/**
 The I/O controller as a state machine.

 The parties are one probe thread per input endpoint, the circuit thread, one output
 thread per output endpoint, the backpressure thread, a client that calls `start` and
 `pause`, and a monitor that calls `pipeline_complete`.  One step is one access to a
 shared location (an atomic, a queue, a parker token); the local computation that follows
 the access up to the next one belongs to the same step.  Loops over endpoint maps visit
 the endpoints in an arbitrary order, which covers the order of every map.

 Fields marked "history" are read by no thread: they record what happened.
 */
module ControllerModel {

  function Below(n: nat): (r: set<nat>)
    ensures forall e: nat :: e in r <==> e < n
  {
    if n == 0 then {} else Below(n - 1) + {n - 1}
  }

  datatype Mode = Running | Paused

  datatype Command = Start | Pause

  /** The pipeline configuration, with the largest batch each transport delivers
      (`batchCap`) and the record counts that the parser's `eoi` may return. */
  datatype Config = Config(
    minBatch: nat,
    maxIn: seq<nat>,
    maxOut: seq<nat>,
    stream: seq<nat>,
    batchCap: seq<nat>,
    eoiCounts: set<nat>)
  {
    ghost predicate Valid() {
      |stream| == |maxOut| && |batchCap| == |maxIn|
    }

    function Inputs(): set<nat> {
      Below(|maxIn|)
    }

    function Outputs(): set<nat> {
      Below(|maxOut|)
    }
  }

  datatype ProbePc =
    | Idle
    | AddingTotal(eoi: bool, n: nat)
    | AddingBuffered(eoi: bool, n: nat)
    | WakingCircuit(eoi: bool, n: nat)
    | AddingEndpoint(eoi: bool, n: nat)
    | WakingBackpressure
    | SettingEoi
    | Finished

  /** An input endpoint: its probe thread, its `buffered_records` counter and its
      `end_of_input` flag.  History: `own` counts what this probe added to the global
      counter since its last reset; `straddling` says that the batch in progress was added
      before that reset; `late` is the size of such a batch once the endpoint counted it. */
  datatype Probe = Probe(pc: ProbePc, buffered: nat, eoi: bool, own: nat, late: nat, straddling: bool)

  datatype CircuitPc =
    | CheckingOutputs(todo: set<nat>)
    | ParkedFull(i: nat)
    | ReadingBuffered
    | ParkedTimed
    | ParkedEmpty
    | ResettingGlobal
    | ResettingEndpoints(todo: set<nat>)
    | ReadingTotal
    | WakingBackpressureThread
    | CallingStep
    | Stepping(floor: nat)
    | StoringProcessed
    | Announcing(todo: set<nat>)
    | Pushing(todo: set<nat>, i: nat)
    | WakingOutput(todo: set<nat>, i: nat)

  /** `armed` is `start.is_some()`, `frontier` the last value of `processed_records`. */
  datatype Circuit = Circuit(pc: CircuitPc, armed: bool, frontier: nat)

  /** A queue entry.  `step` (history) numbers the circuit step that produced it. */
  datatype Batch = Batch(step: nat, size: nat, frontier: nat)

  datatype OutputPc =
    | Popping
    | OutputParked
    | Encoding(b: Batch)
    | Labelling(b: Batch)
    | Subtracting(b: Batch)
    | OutputWaking

  /** An output endpoint: its thread, counters and queue.  The counter is an integer, so
      that an underflow would be visible.  History: the batches handed to the encoder and
      the size of the last batch announced. */
  datatype Output = Output(
    pc: OutputPc, buffered: int, frontier: nat, queue: seq<Batch>, token: bool,
    encoded: seq<Batch>, last: nat)

  datatype BackpressurePc =
    | Looking
    | Scanning(todo: set<nat>)
    | Acting(todo: set<nat>, e: nat, full: bool)
    | Pausing(todo: set<nat>)
    | BackpressureParked

  /** History: the commands sent to each endpoint, and what the last scan observed. */
  datatype Backpressure = Backpressure(
    pc: BackpressurePc, globalPause: bool, paused: set<nat>,
    commands: seq<seq<Command>>, sawRunning: bool, sawFull: seq<bool>)

  datatype MonitorPc =
    | MonitorIdle
    | ReadingEois(todo: set<nat>)
    | ReadingTotalInput
    | ReadingProcessed(total: nat)
    | ReadingFrontiers(total: nat, todo: set<nat>)
    | Complete
    | Incomplete

  /** One completed circuit step (history): its frontier, the records consumed before and
      after it, and the number of records it produced for each output endpoint. */
  datatype StepRecord = StepRecord(frontier: nat, before: nat, after: nat, sizes: seq<nat>)

  /** The atomics shared by all threads and the two parker tokens. */
  datatype Shared = Shared(
    total: nat, buffered: nat, processed: nat, desired: Mode, circuitToken: bool, backpressureToken: bool)

  /** History: `flushed` and `consumed` count input records handed to and taken by the
      circuit; `drained` is the sum of the values erased by `consume_buffered_inputs` and
      `resets` the number of its calls; `steps` lists the completed circuit steps. */
  datatype Past = Past(flushed: nat, consumed: nat, drained: nat, resets: nat, steps: seq<StepRecord>)

  datatype State = State(
    shared: Shared,
    ins: seq<Probe>,
    circuit: Circuit,
    outs: seq<Output>,
    bp: Backpressure,
    clientWaking: bool,
    monitor: MonitorPc,
    past: Past)

  datatype Step =
    | Deliver(e: nat, eoi: bool, n: nat)
    | ProbeStep(e: nat)
    | CheckOutput(i: nat)
    | ReadBuffered(expired: bool)
    | ResetEndpoint(e: nat)
    | ReturnStep(after: nat, sizes: seq<nat>)
    | Announce(i: nat)
    | CircuitStep
    | OutputStep(i: nat)
    | ReadFull(e: nat)
    | PauseEndpoint(e: nat)
    | BackpressureStep
    | ClientSets(mode: Mode)
    | ClientWakes
    | MonitorCalls
    | MonitorReads(k: nat)

  // ---------------------------------------------------------------- wake-up guards

  /** `ControllerStatus::input_batch` unparks the circuit thread. */
  predicate InputWakes(c: Config, prior: nat, n: nat) {
    prior == 0 || (prior <= c.minBatch && prior + n > c.minBatch)
  }

  /** `ControllerStatus::eoi` unparks the circuit thread. */
  predicate EoiWakes(c: Config, prior: nat, n: nat) {
    prior < c.minBatch && prior + n >= c.minBatch
  }

  // ---------------------------------------------------------------- input probes

  predicate ProbeEnabled(c: Config, s: State, e: nat) {
    e < |s.ins| && e < |c.maxIn| && !s.ins[e].pc.Idle? && !s.ins[e].pc.Finished?
  }

  /** The parser returned `n` records and flushed them to the circuit's input handle. */
  function DeliverApply(s: State, e: nat, eoi: bool, n: nat): State
    requires e < |s.ins|
  {
    s.(past := s.past.(flushed := s.past.flushed + n), ins := s.ins[e := s.ins[e].(pc := AddingTotal(eoi, n))])
  }

  /** What a probe's next access does to the shared counters and tokens. */
  function ProbeShared(g: Shared, pc: ProbePc): Shared {
    match pc
    case AddingTotal(_, n) => g.(total := g.total + n)
    case AddingBuffered(_, n) => g.(buffered := g.buffered + n)
    case WakingCircuit(_, _) => g.(circuitToken := true)
    case WakingBackpressure => g.(backpressureToken := true)
    case _ => g
  }

  /** What a probe's next access does to its own endpoint and program counter;
      `buffered` is the value of the global counter that the access may read. */
  function ProbeMove(c: Config, buffered: nat, max: nat, p: Probe): Probe {
    match p.pc
    case AddingTotal(eoi, n) => p.(pc := AddingBuffered(eoi, n))
    case AddingBuffered(eoi, n) =>
      var wakes := if eoi then EoiWakes(c, buffered, n) else InputWakes(c, buffered, n);
      p.(pc := if wakes then WakingCircuit(eoi, n) else AddingEndpoint(eoi, n), own := p.own + n)
    case WakingCircuit(eoi, n) => p.(pc := AddingEndpoint(eoi, n))
    case AddingEndpoint(eoi, n) =>
      var pc := if eoi then SettingEoi
                else if p.buffered < max && p.buffered + n >= max then WakingBackpressure
                else Idle;
      p.(pc := pc, buffered := p.buffered + n, late := if p.straddling then n else p.late, straddling := false)
    case WakingBackpressure => p.(pc := Idle)
    case SettingEoi => p.(pc := Finished, eoi := true)
    case _ => p
  }

  function ProbeApply(c: Config, s: State, e: nat): State
    requires ProbeEnabled(c, s, e)
  {
    s.(shared := ProbeShared(s.shared, s.ins[e].pc),
       ins := s.ins[e := ProbeMove(c, s.shared.buffered, c.maxIn[e], s.ins[e])])
  }

  // ---------------------------------------------------------------- circuit thread

  function NextCheck(todo: set<nat>): CircuitPc {
    if todo == {} then ReadingBuffered else CheckingOutputs(todo)
  }

  function Top(c: Config): CircuitPc {
    NextCheck(c.Outputs())
  }

  function NextReset(todo: set<nat>): CircuitPc {
    if todo == {} then ReadingTotal else ResettingEndpoints(todo)
  }

  function NextAnnounce(c: Config, todo: set<nat>): CircuitPc {
    if todo == {} then Top(c) else Announcing(todo)
  }

  /** The batch of one stream goes to all endpoints of the stream. */
  ghost predicate SizesMatchStreams(c: Config, sizes: seq<nat>)
    requires c.Valid()
  {
    && |sizes| == |c.maxOut|
    && forall i, j :: 0 <= i < |sizes| && 0 <= j < |sizes| && c.stream[i] == c.stream[j] ==> sizes[i] == sizes[j]
  }

  /** The batch that step `k` produced for output endpoint `i`. */
  function BatchOf(past: Past, k: nat, i: nat): Batch
    requires k < |past.steps| && i < |past.steps[k].sizes|
  {
    Batch(k, past.steps[k].sizes[i], past.steps[k].frontier)
  }

  predicate CanSend(s: State, i: nat) {
    i < |s.outs| && s.past.steps != [] && i < |s.past.steps[|s.past.steps| - 1].sizes|
  }

  predicate CircuitEnabled(s: State) {
    match s.circuit.pc
    case ParkedFull(_) => s.shared.circuitToken
    case ParkedEmpty => s.shared.circuitToken
    case Pushing(_, i) => CanSend(s, i)
    case WakingOutput(_, i) => i < |s.outs|
    case CheckingOutputs(_) => false
    case ReadingBuffered => false
    case ResettingEndpoints(_) => false
    case Stepping(_) => false
    case Announcing(_) => false
    case _ => true
  }

  function MarkReset(p: Probe): Probe {
    p.(own := 0, late := 0, straddling := p.pc.WakingCircuit? || p.pc.AddingEndpoint?)
  }

  function MarkResets(ins: seq<Probe>): (r: seq<Probe>) {
    seq(|ins|, e requires 0 <= e < |ins| => MarkReset(ins[e]))
  }

  /** Program counter after a deterministic step of the circuit thread. */
  function CircuitNext(c: Config, g: Shared, flushed: nat, t: Circuit): Circuit {
    match t.pc
    case ParkedFull(_) => t.(pc := Top(c))
    case ParkedEmpty => t.(pc := Top(c))
    case ParkedTimed => t.(pc := Top(c))
    case ResettingGlobal => t.(pc := NextReset(c.Inputs()))
    case ReadingTotal => t.(pc := WakingBackpressureThread, frontier := g.total)
    case WakingBackpressureThread => t.(pc := CallingStep)
    case CallingStep => t.(pc := Stepping(flushed))
    case StoringProcessed => t.(pc := NextAnnounce(c, c.Outputs()))
    case Pushing(todo, i) => t.(pc := WakingOutput(todo, i))
    case WakingOutput(todo, i) => t.(pc := NextAnnounce(c, todo - {i}))
    case _ => t
  }

  function CircuitShared(g: Shared, t: Circuit): Shared {
    match t.pc
    case ParkedFull(_) => g.(circuitToken := false)
    case ParkedEmpty => g.(circuitToken := false)
    case ParkedTimed => g.(circuitToken := false)
    case ResettingGlobal => g.(buffered := 0)
    case WakingBackpressureThread => g.(backpressureToken := true)
    case StoringProcessed => g.(processed := t.frontier)
    case _ => g
  }

  function CircuitApply(c: Config, s: State): State
    requires CircuitEnabled(s)
  {
    var s' := s.(shared := CircuitShared(s.shared, s.circuit),
                 circuit := CircuitNext(c, s.shared, s.past.flushed, s.circuit));
    match s.circuit.pc
    case ResettingGlobal =>
      s'.(ins := MarkResets(s.ins),
          past := s.past.(drained := s.past.drained + s.shared.buffered, resets := s.past.resets + 1))
    case Pushing(_, i) =>
      var b := BatchOf(s.past, |s.past.steps| - 1, i);
      s'.(outs := s.outs[i := s.outs[i].(queue := s.outs[i].queue + [b])])
    case WakingOutput(_, i) => s'.(outs := s.outs[i := s.outs[i].(token := true)])
    case _ => s'
  }

  /** One read in `output_buffers_full`. */
  function CheckOutputApply(c: Config, s: State, i: nat): State
    requires s.circuit.pc.CheckingOutputs? && i < |s.outs| && i < |c.maxOut|
  {
    var full := s.outs[i].buffered >= c.maxOut[i];
    s.(circuit := s.circuit.(pc := if full then ParkedFull(i) else NextCheck(s.circuit.pc.todo - {i})))
  }

  /** The read of `buffered_input_records` and the three-way decision that follows. */
  function ReadBufferedApply(c: Config, s: State, expired: bool): State {
    s.(circuit :=
         if s.shared.buffered > c.minBatch || expired then s.circuit.(pc := ResettingGlobal, armed := false)
         else if s.shared.buffered > 0 then s.circuit.(pc := ParkedTimed, armed := true)
         else s.circuit.(pc := ParkedEmpty))
  }

  function ResetEndpointApply(s: State, e: nat): State
    requires s.circuit.pc.ResettingEndpoints? && e < |s.ins|
  {
    s.(ins := s.ins[e := s.ins[e].(buffered := 0)],
       circuit := s.circuit.(pc := NextReset(s.circuit.pc.todo - {e})))
  }

  function ReturnStepApply(s: State, after: nat, sizes: seq<nat>): State {
    var record := StepRecord(s.circuit.frontier, s.past.consumed, after, sizes);
    s.(past := s.past.(consumed := after, steps := s.past.steps + [record]),
       circuit := s.circuit.(pc := StoringProcessed))
  }

  /** `enqueue_batch`: the statistics are raised before the batch is queued. */
  function AnnounceApply(s: State, i: nat): State
    requires s.circuit.pc.Announcing? && CanSend(s, i)
  {
    var n := BatchOf(s.past, |s.past.steps| - 1, i).size;
    s.(outs := s.outs[i := s.outs[i].(buffered := s.outs[i].buffered + n, last := n)],
       circuit := s.circuit.(pc := Pushing(s.circuit.pc.todo, i)))
  }

  // ---------------------------------------------------------------- output threads

  predicate OutputEnabled(c: Config, s: State, i: nat) {
    i < |s.outs| && i < |c.maxOut| && (s.outs[i].pc.OutputParked? ==> s.outs[i].token)
  }

  function OutputMove(max: nat, o: Output): Output {
    match o.pc
    case Popping =>
      if o.queue == [] then o.(pc := OutputParked) else o.(pc := Encoding(o.queue[0]), queue := o.queue[1..])
    case OutputParked => o.(pc := Popping, token := false)
    case Encoding(b) => o.(pc := Labelling(b), encoded := o.encoded + [b])
    case Labelling(b) => o.(pc := Subtracting(b), frontier := b.frontier)
    case Subtracting(b) =>
      var wakes := o.buffered - b.size <= max && o.buffered >= max;
      o.(pc := if wakes then OutputWaking else Popping, buffered := o.buffered - b.size)
    case OutputWaking => o.(pc := Popping)
  }

  function OutputApply(c: Config, s: State, i: nat): State
    requires OutputEnabled(c, s, i)
  {
    s.(shared := if s.outs[i].pc.OutputWaking? then s.shared.(circuitToken := true) else s.shared,
       outs := s.outs[i := OutputMove(c.maxOut[i], s.outs[i])])
  }

  // ---------------------------------------------------------------- backpressure thread

  function Send(bp: Backpressure, e: nat, command: Command): Backpressure
    requires e < |bp.commands|
  {
    bp.(commands := bp.commands[e := bp.commands[e] + [command]])
  }

  function NextScan(bp: Backpressure, todo: set<nat>): Backpressure {
    if todo == {} then bp.(pc := BackpressureParked, globalPause := false) else bp.(pc := Scanning(todo))
  }

  function NextPause(bp: Backpressure, todo: set<nat>): Backpressure {
    if todo == {} then bp.(pc := BackpressureParked, globalPause := true) else bp.(pc := Pausing(todo))
  }

  predicate BackpressureEnabled(s: State) {
    match s.bp.pc
    case Looking => true
    case Acting(_, e, _) => e < |s.bp.commands|
    case BackpressureParked => s.shared.backpressureToken
    case _ => false
  }

  /** The commands that follow one `input_endpoint_full`. */
  function Obey(bp: Backpressure, e: nat, full: bool): Backpressure
    requires e < |bp.commands|
  {
    if full then
      (if !bp.globalPause && e !in bp.paused then Send(bp, e, Pause) else bp).(paused := bp.paused + {e})
    else
      (if bp.globalPause || e in bp.paused then Send(bp, e, Start) else bp).(paused := bp.paused - {e})
  }

  function BackpressureMove(c: Config, desired: Mode, bp: Backpressure): Backpressure
    requires bp.pc.Acting? ==> bp.pc.e < |bp.commands|
  {
    match bp.pc
    case Looking =>
      if desired == Paused then NextPause(bp.(sawRunning := false), if bp.globalPause then {} else c.Inputs())
      else NextScan(bp.(sawRunning := true), c.Inputs())
    case Acting(todo, e, full) => NextScan(Obey(bp, e, full), todo - {e})
    case BackpressureParked => bp.(pc := Looking)
    case _ => bp
  }

  function BackpressureApply(c: Config, s: State): State
    requires BackpressureEnabled(s)
  {
    s.(shared := if s.bp.pc.BackpressureParked? then s.shared.(backpressureToken := false) else s.shared,
       bp := BackpressureMove(c, s.shared.desired, s.bp))
  }

  /** `input_endpoint_full`. */
  function ReadFullApply(c: Config, s: State, e: nat): State
    requires s.bp.pc.Scanning? && e < |s.ins| && e < |c.maxIn| && e < |s.bp.sawFull|
  {
    var full := s.ins[e].buffered >= c.maxIn[e];
    s.(bp := s.bp.(pc := Acting(s.bp.pc.todo, e, full), sawFull := s.bp.sawFull[e := full]))
  }

  function PauseEndpointApply(s: State, e: nat): State
    requires s.bp.pc.Pausing? && e < |s.bp.commands|
  {
    var commanded := if e !in s.bp.paused then Send(s.bp, e, Pause) else s.bp;
    s.(bp := NextPause(commanded, s.bp.pc.todo - {e}))
  }

  /** A transport is created paused.  Once started it may deliver, and some data may still
      trail a later pause. */
  predicate HasBeenStarted(bp: Backpressure, e: nat) {
    e < |bp.commands| && bp.commands[e] != []
  }

  // ---------------------------------------------------------------- monitor

  function NextEoi(todo: set<nat>): MonitorPc {
    if todo == {} then ReadingTotalInput else ReadingEois(todo)
  }

  function NextFrontier(total: nat, todo: set<nat>): MonitorPc {
    if todo == {} then Complete else ReadingFrontiers(total, todo)
  }

  predicate MonitorEnabled(s: State, k: nat) {
    match s.monitor
    case ReadingEois(todo) => k in todo && k < |s.ins|
    case ReadingTotalInput => true
    case ReadingProcessed(_) => true
    case ReadingFrontiers(_, todo) => k in todo && k < |s.outs|
    case _ => false
  }

  /** One read of `pipeline_complete`. */
  function MonitorMove(c: Config, s: State, k: nat): MonitorPc
    requires MonitorEnabled(s, k)
  {
    match s.monitor
    case ReadingEois(todo) => if s.ins[k].eoi then NextEoi(todo - {k}) else Incomplete
    case ReadingTotalInput => ReadingProcessed(s.shared.total)
    case ReadingProcessed(total) =>
      if s.shared.processed == total then NextFrontier(total, c.Outputs()) else Incomplete
    case ReadingFrontiers(total, todo) =>
      if s.outs[k].frontier == total then NextFrontier(total, todo - {k}) else Incomplete
  }

  // ---------------------------------------------------------------- the whole system

  ghost predicate Init(c: Config, s: State) {
    && c.Valid()
    && s.shared == Shared(0, 0, 0, Paused, false, s.shared.backpressureToken)
    && s.ins == seq(|c.maxIn|, _ => Probe(Idle, 0, false, 0, 0, false))
    && s.circuit == Circuit(Top(c), false, 0)
    && s.outs == seq(|c.maxOut|, _ => Output(Popping, 0, 0, [], false, [], 0))
    && s.bp == Backpressure(Looking, true, {}, seq(|c.maxIn|, _ => []), false, seq(|c.maxIn|, _ => false))
    && !s.clientWaking
    && s.monitor == MonitorIdle
    && s.past == Past(0, 0, 0, 0, [])
  }

  ghost predicate Enabled(c: Config, s: State, step: Step) {
    match step
    case Deliver(e, eoi, n) =>
      && e < |s.ins| && s.ins[e].pc.Idle? && e < |c.batchCap| && n <= c.batchCap[e] && (eoi ==> n in c.eoiCounts)
      && HasBeenStarted(s.bp, e)
    case ProbeStep(e) => ProbeEnabled(c, s, e)
    case CheckOutput(i) => s.circuit.pc.CheckingOutputs? && i in s.circuit.pc.todo && i < |s.outs| && i < |c.maxOut|
    case ReadBuffered(expired) => s.circuit.pc.ReadingBuffered? && (expired ==> s.circuit.armed)
    case ResetEndpoint(e) => s.circuit.pc.ResettingEndpoints? && e in s.circuit.pc.todo && e < |s.ins|
    case ReturnStep(after, sizes) =>
      && s.circuit.pc.Stepping?
      && s.circuit.pc.floor <= after <= s.past.flushed
      && c.Valid() && SizesMatchStreams(c, sizes)
    case Announce(i) => s.circuit.pc.Announcing? && i in s.circuit.pc.todo && CanSend(s, i)
    case CircuitStep => CircuitEnabled(s)
    case OutputStep(i) => OutputEnabled(c, s, i)
    case ReadFull(e) =>
      s.bp.pc.Scanning? && e in s.bp.pc.todo && e < |s.ins| && e < |c.maxIn| && e < |s.bp.sawFull|
    case PauseEndpoint(e) => s.bp.pc.Pausing? && e in s.bp.pc.todo && e < |s.bp.commands|
    case BackpressureStep => BackpressureEnabled(s)
    case ClientSets(_) => !s.clientWaking
    case ClientWakes => s.clientWaking
    case MonitorCalls => s.monitor.MonitorIdle? || s.monitor.Complete? || s.monitor.Incomplete?
    case MonitorReads(k) => MonitorEnabled(s, k)
  }

  ghost function Apply(c: Config, s: State, step: Step): State
    requires Enabled(c, s, step)
  {
    match step
    case Deliver(e, eoi, n) => DeliverApply(s, e, eoi, n)
    case ProbeStep(e) => ProbeApply(c, s, e)
    case CheckOutput(i) => CheckOutputApply(c, s, i)
    case ReadBuffered(expired) => ReadBufferedApply(c, s, expired)
    case ResetEndpoint(e) => ResetEndpointApply(s, e)
    case ReturnStep(after, sizes) => ReturnStepApply(s, after, sizes)
    case Announce(i) => AnnounceApply(s, i)
    case CircuitStep => CircuitApply(c, s)
    case OutputStep(i) => OutputApply(c, s, i)
    case ReadFull(e) => ReadFullApply(c, s, e)
    case PauseEndpoint(e) => PauseEndpointApply(s, e)
    case BackpressureStep => BackpressureApply(c, s)
    case ClientSets(mode) => s.(shared := s.shared.(desired := mode), clientWaking := true)
    case ClientWakes => s.(shared := s.shared.(backpressureToken := true), clientWaking := false)
    case MonitorCalls => s.(monitor := NextEoi(c.Inputs()))
    case MonitorReads(k) => s.(monitor := MonitorMove(c, s, k))
  }

  ghost predicate Next(c: Config, s: State, s': State) {
    exists step :: Enabled(c, s, step) && s' == Apply(c, s, step)
  }

  ghost predicate StepAt(c: Config, run: seq<State>, k: nat)
    requires k + 1 < |run|
  {
    Next(c, run[k], run[k + 1])
  }

  /** A finite run: every interleaving of the threads is one. */
  ghost predicate IsRun(c: Config, run: seq<State>) {
    && run != []
    && Init(c, run[0])
    && forall k :: 0 <= k < |run| - 1 ==> StepAt(c, run, k)
  }
}
