/**
 Two promises that the code does not keep for every configuration, and exactly when it
 keeps them.

 - `ControllerStatus::eoi` omits the wake-up that `input_batch` gives when the global
   counter was 0, so records that only the end of input delivers can be left behind.
 - A batch that straddles a reset is counted at its endpoint only.  If it fills the
   endpoint, the endpoint is paused and nothing is left that would reset its counter.

 Both directions are proved: the invariant excludes the bad states when the condition
 holds, and a run built here reaches one when it fails.
 */
module ControllerWitnesses {
  import opened ControllerModel
  import opened ControllerOutputs
  import opened ControllerWakeups
  import opened ControllerBackpressure
  import opened ControllerInvariant
  import opened ControllerTheorems

  ghost predicate Reach(c: Config, s: State) {
    exists run :: IsRun(c, run) && run[|run| - 1] == s
  }

  lemma ReachInv(c: Config, s: State)
    requires Reach(c, s)
    ensures Inv(c, s)
  {
    var run :| IsRun(c, run) && run[|run| - 1] == s;
    InvLast(c, run, s);
  }

  lemma InvLast(c: Config, run: seq<State>, s: State)
    requires IsRun(c, run) && run[|run| - 1] == s
    ensures Inv(c, s)
  {
    InvRun(c, run, |run| - 1);
  }

  lemma Go(c: Config, s: State, step: Step) returns (s': State)
    requires Reach(c, s) && Enabled(c, s, step)
    ensures s' == Apply(c, s, step) && Reach(c, s')
  {
    s' := Apply(c, s, step);
    var run :| IsRun(c, run) && run[|run| - 1] == s;
    var longer := run + [s'];
    forall k | 0 <= k < |longer| - 1 ensures StepAt(c, longer, k) {
      if k == |run| - 1 {
        assert Enabled(c, s, step) && s' == Apply(c, s, step);
        assert longer[k] == s && longer[k + 1] == s';
      } else {
        assert StepAt(c, run, k);
        assert longer[k] == run[k] && longer[k + 1] == run[k + 1];
      }
    }
    assert IsRun(c, longer) && longer[|longer| - 1] == s';
  }

  lemma GoCircuit(c: Config, s: State) returns (s': State)
    requires Reach(c, s) && CircuitEnabled(s)
    ensures s' == CircuitApply(c, s) && Reach(c, s')
  {
    s' := Go(c, s, CircuitStep);
  }

  lemma GoProbe(c: Config, s: State, e: nat) returns (s': State)
    requires Reach(c, s) && ProbeEnabled(c, s, e)
    ensures s' == ProbeApply(c, s, e) && Reach(c, s')
  {
    s' := Go(c, s, ProbeStep(e));
  }

  lemma Begin(c: Config) returns (s: State)
    requires c.Valid()
    ensures Init(c, s) && Reach(c, s) && !s.shared.backpressureToken
  {
    s := State(
      Shared(0, 0, 0, Paused, false, false),
      seq(|c.maxIn|, _ => Probe(Idle, 0, false, 0, 0, false)),
      Circuit(Top(c), false, 0),
      seq(|c.maxOut|, _ => Output(Popping, 0, 0, [], false, [], 0)),
      Backpressure(Looking, true, {}, seq(|c.maxIn|, _ => []), false, seq(|c.maxIn|, _ => false)),
      false, MonitorIdle, Past(0, 0, 0, 0, []));
    assert IsRun(c, [s]) && [s][|[s]| - 1] == s;
  }

  ghost predicate HasRoom(c: Config, outs: seq<Output>) {
    |outs| == |c.maxOut| && forall i :: 0 <= i < |outs| ==> outs[i].buffered < c.maxOut[i]
  }

  /** `output_buffers_full` answers false. */
  lemma ChecksPass(c: Config, s: State, todo: set<nat>) returns (s': State)
    requires Reach(c, s) && s.circuit.pc == NextCheck(todo) && todo <= c.Outputs() && HasRoom(c, s.outs)
    ensures Reach(c, s') && s' == s.(circuit := s.circuit.(pc := ReadingBuffered))
    decreases |todo|
  {
    if todo == {} {
      s' := s;
    } else {
      var i :| i in todo;
      s' := Go(c, s, CheckOutput(i));
      s' := ChecksPass(c, s', todo - {i});
    }
  }

  lemma ParksEmpty(c: Config, s: State) returns (s': State)
    requires Reach(c, s) && s.circuit.pc == Top(c) && HasRoom(c, s.outs) && s.shared.buffered == 0
    ensures Reach(c, s') && s' == s.(circuit := s.circuit.(pc := ParkedEmpty))
  {
    s' := ChecksPass(c, s, c.Outputs());
    s' := Go(c, s', ReadBuffered(false));
  }

  // ---------------------------------------------------------------- starvation

  /** Endpoint `e` counts as full and is paused, nothing is counted globally, and no
      thread is going to change that. */
  ghost predicate Starved(c: Config, s: State, e: nat) {
    && s.shared.buffered == 0 && !s.circuit.armed
    && (s.circuit.pc.CheckingOutputs? || s.circuit.pc.ParkedFull? || s.circuit.pc.ReadingBuffered? ||
       s.circuit.pc.ParkedEmpty?)
    && (forall d :: 0 <= d < |s.ins| ==> s.ins[d].pc.Idle? || s.ins[d].pc.Finished?)
    && e < |s.ins| && e < |c.maxIn| && s.ins[e].pc.Idle? && s.ins[e].buffered >= c.maxIn[e]
    && s.shared.desired == Running && !s.clientWaking
    && s.bp.pc.BackpressureParked? && !s.shared.backpressureToken
    && e < |s.bp.commands| && !Started(s.bp.commands[e]) && (s.bp.commands[e] != [] || c.maxIn[e] == 0)
  }

  /** Only new data (another transport's, or what trails the pause on this one) or a new client
      request ends starvation. */
  lemma StarvedStays(c: Config, s: State, step: Step, e: nat)
    requires Starved(c, s, e) && Enabled(c, s, step) && !step.Deliver? && !step.ClientSets?
    ensures Starved(c, Apply(c, s, step), e)
  {
  }

  lemma ScanOne(c: Config, s: State, todo: set<nat>, e: nat) returns (s': State)
    requires Reach(c, s) && s.bp.pc == Scanning(todo) && e in todo
    requires e < |s.ins| && e < |c.maxIn| && e < |s.bp.sawFull| && e < |s.bp.commands|
    ensures Reach(c, s') && s' == s.(bp := s'.bp)
    ensures s'.bp.pc == if todo - {e} == {} then BackpressureParked else Scanning(todo - {e})
    ensures |s'.bp.commands| == |s.bp.commands|
    ensures forall d :: 0 <= d < |s.bp.commands| ==> |s.bp.commands[d]| <= |s'.bp.commands[d]|
  {
    s' := Go(c, s, ReadFull(e));
    s' := Go(c, s', BackpressureStep);
  }

  /** The rest of a scan of the backpressure thread. */
  lemma ScanAll(c: Config, s: State, todo: set<nat>) returns (s': State)
    requires Reach(c, s) && s.bp.pc == Scanning(todo)
    ensures Reach(c, s') && s' == s.(bp := s'.bp) && s'.bp.pc.BackpressureParked?
    ensures |s'.bp.commands| == |s.bp.commands|
    ensures forall d :: 0 <= d < |s.bp.commands| ==> |s.bp.commands[d]| <= |s'.bp.commands[d]|
    decreases |todo|
  {
    ReachInv(c, s);
    var e :| e in todo;
    s' := ScanOne(c, s, todo, e);
    if todo - {e} != {} {
      s' := ScanAll(c, s', todo - {e});
    }
  }

  /** The parked backpressure thread is woken in state `Running` and scans. */
  lemma WakeAndScan(c: Config, s: State) returns (s': State)
    requires Reach(c, s) && s.bp.pc.BackpressureParked? && s.shared.backpressureToken && s.shared.desired == Running
    requires |c.maxIn| > 0
    ensures Reach(c, s') && s'.bp.pc.BackpressureParked?
    ensures s' == s.(bp := s'.bp, shared := s.shared.(backpressureToken := false))
    ensures |s'.bp.commands| == |s.bp.commands|
    ensures forall d :: 0 <= d < |s.bp.commands| ==> |s.bp.commands[d]| <= |s'.bp.commands[d]|
  {
    var s1 := Go(c, s, BackpressureStep);
    var s2 := Go(c, s1, BackpressureStep);
    assert 0 in c.Inputs();
    s' := ScanAll(c, s2, c.Inputs());
  }

  /** At rest, an endpoint is running exactly when it is not full. */
  lemma AtRest(c: Config, s: State, e: nat)
    requires Reach(c, s) && s.bp.pc.BackpressureParked? && !WakePending(s) && s.shared.desired == Running
    requires e < |s.ins| && !Ending(s.ins[e])
    ensures e < |c.maxIn| && e < |s.bp.commands| && (Started(s.bp.commands[e]) <==> s.ins[e].buffered < c.maxIn[e])
  {
    ReachInv(c, s);
  }

  lemma StartAll(c: Config) returns (s: State)
    requires c.Valid() && |c.maxIn| > 0
    ensures Reach(c, s) && s.bp.pc.BackpressureParked?
    ensures exists i ::
              Init(c, i) && s == i.(bp := s.bp, shared := i.shared.(backpressureToken := false, desired := Running))
  {
    var s0 := Begin(c);
    var s1 := Go(c, s0, BackpressureStep);
    var s2 := Go(c, s1, ClientSets(Running));
    var s3 := Go(c, s2, ClientWakes);
    s := WakeAndScan(c, s3);
    assert s == s0.(bp := s.bp, shared := s0.shared.(backpressureToken := false, desired := Running));
  }

  /** With records counted, the circuit thread gets to `consume_buffered_inputs`. */
  lemma DecidesToStep(c: Config, s: State) returns (s': State)
    requires Reach(c, s) && s.circuit.pc == Top(c) && !s.circuit.armed && HasRoom(c, s.outs) && s.shared.buffered > 0
    ensures Reach(c, s')
    ensures s' == s.(circuit := s.circuit.(pc := ResettingGlobal),
        shared := s.shared.(circuitToken := s'.shared.circuitToken))
  {
    s' := ChecksPass(c, s, c.Outputs());
    s' := Go(c, s', ReadBuffered(false));
    if s.shared.buffered <= c.minBatch {
      s' := GoCircuit(c, s');
      s' := ChecksPass(c, s', c.Outputs());
      s' := Go(c, s', ReadBuffered(true));
    }
  }

  lemma ResetAll(c: Config, s: State, todo: set<nat>) returns (s': State)
    requires Reach(c, s) && s.circuit.pc == NextReset(todo) && todo <= c.Inputs() && |s.ins| == |c.maxIn|
    requires forall d :: 0 <= d < |s.ins| ==> s.ins[d].buffered == 0
    ensures Reach(c, s') && s' == s.(circuit := s.circuit.(pc := ReadingTotal))
    decreases |todo|
  {
    if todo == {} {
      s' := s;
    } else {
      var d :| d in todo;
      s' := Go(c, s, ResetEndpoint(d));
      assert s'.ins == s.ins;
      s' := ResetAll(c, s', todo - {d});
    }
  }

  ghost predicate NothingProduced(c: Config, past: Past) {
    past.steps != [] && past.steps[|past.steps| - 1].sizes == seq(|c.maxOut|, _ => 0)
  }

  lemma PushOne(c: Config, s: State, todo: set<nat>, i: nat) returns (s': State)
    requires Reach(c, s) && s.circuit.pc == Pushing(todo, i) && CanSend(s, i) && HasRoom(c, s.outs)
    ensures Reach(c, s') && s' == s.(outs := s'.outs, circuit := s.circuit.(pc := NextAnnounce(c, todo - {i})))
    ensures HasRoom(c, s'.outs)
  {
    s' := GoCircuit(c, s);
    s' := GoCircuit(c, s');
  }

  lemma SendOne(c: Config, s: State, todo: set<nat>, i: nat) returns (s': State)
    requires Reach(c, s) && s.circuit.pc == Announcing(todo) && i in todo && i < |c.maxOut|
    requires NothingProduced(c, s.past) && HasRoom(c, s.outs)
    ensures Reach(c, s') && s' == s.(outs := s'.outs, circuit := s.circuit.(pc := NextAnnounce(c, todo - {i})))
    ensures HasRoom(c, s'.outs)
  {
    s' := Go(c, s, Announce(i));
    s' := PushOne(c, s', todo, i);
  }

  /** Empty batches are sent to all endpoints. */
  lemma SendAll(c: Config, s: State, todo: set<nat>) returns (s': State)
    requires Reach(c, s) && s.circuit.pc == NextAnnounce(c, todo) && todo <= c.Outputs()
    requires NothingProduced(c, s.past) && HasRoom(c, s.outs)
    ensures Reach(c, s') && s' == s.(outs := s'.outs, circuit := s.circuit.(pc := Top(c))) && HasRoom(c, s'.outs)
    decreases |todo|
  {
    if todo == {} {
      s' := s;
    } else {
      var i :| i in todo;
      s' := SendOne(c, s, todo, i);
      s' := SendAll(c, s', todo - {i});
    }
  }

  /** From the reset of the counters to the call of the circuit. */
  lemma Resets(c: Config, s: State) returns (s': State)
    requires Reach(c, s) && s.circuit.pc.ResettingGlobal? && |s.ins| == |c.maxIn|
    requires forall d :: 0 <= d < |s.ins| ==> s.ins[d].buffered == 0
    ensures Reach(c, s') && s'.circuit.pc.Stepping?
    ensures s' == s.(circuit := s'.circuit, past := s'.past, ins := MarkResets(s.ins),
                     shared := s.shared.(buffered := 0, backpressureToken := true))
    ensures s'.circuit.armed == s.circuit.armed
  {
    s' := GoCircuit(c, s);
    s' := ResetAll(c, s', c.Inputs());
    s' := GoCircuit(c, s');
    s' := GoCircuit(c, s');
    s' := GoCircuit(c, s');
  }

  /** The circuit consumes everything and produces nothing. */
  lemma Steps(c: Config, s: State) returns (s': State)
    requires Reach(c, s) && s.circuit.pc.Stepping? && s.circuit.pc.floor <= s.past.flushed && c.Valid()
    requires HasRoom(c, s.outs)
    ensures Reach(c, s') && s'.circuit == s.circuit.(pc := Top(c)) && HasRoom(c, s'.outs)
    ensures s' == s.(circuit := s'.circuit, past := s'.past, outs := s'.outs,
                     shared := s.shared.(processed := s'.shared.processed))
  {
    s' := Go(c, s, ReturnStep(s.past.flushed, seq(|c.maxOut|, _ => 0)));
    s' := GoCircuit(c, s');
    s' := SendAll(c, s', c.Outputs());
  }

  /** One iteration of the circuit thread, from the reset to the next look at the outputs,
      while the endpoint counters are 0. */
  lemma Iterate(c: Config, s: State) returns (s': State)
    requires Reach(c, s) && s.circuit.pc.ResettingGlobal? && HasRoom(c, s.outs)
    requires forall d :: 0 <= d < |s.ins| ==> s.ins[d].buffered == 0
    ensures Reach(c, s') && HasRoom(c, s'.outs) && s'.circuit.pc == Top(c) && s'.circuit.armed == s.circuit.armed
    ensures s'.ins == MarkResets(s.ins) && s'.bp == s.bp && s'.clientWaking == s.clientWaking
    ensures s'.shared == s.shared.(buffered := 0, backpressureToken := true, processed := s'.shared.processed)
  {
    ReachInv(c, s);
    s' := Resets(c, s);
    ReachInv(c, s');
    s' := Steps(c, s');
  }

  /** The circuit thread goes to sleep and leaves no token behind. */
  lemma Rests(c: Config, s: State) returns (s': State)
    requires Reach(c, s) && s.circuit.pc == Top(c) && HasRoom(c, s.outs) && s.shared.buffered == 0
    ensures Reach(c, s')
    ensures s' == s.(circuit := s.circuit.(pc := ParkedEmpty), shared := s.shared.(circuitToken := false))
  {
    s' := ParksEmpty(c, s);
    if s'.shared.circuitToken {
      s' := GoCircuit(c, s');
      s' := ParksEmpty(c, s');
    }
  }

  /** A batch of endpoint `e` is counted globally and not yet at the endpoint. */
  lemma HalfCount(c: Config, s: State, e: nat, n: nat) returns (s': State)
    requires Reach(c, s) && HasBeenStarted(s.bp, e) && e < |s.ins| && e < |c.maxIn| && e < |c.batchCap|
    requires n <= c.batchCap[e]
    requires s.ins[e].pc.Idle? && s.shared.buffered == 0
    ensures Reach(c, s') && s'.ins == s.ins[e := s.ins[e].(pc := AddingEndpoint(false, n), own := s.ins[e].own + n)]
    ensures s' == s.(ins := s'.ins, past := s'.past,
                     shared := s.shared.(total := s.shared.total + n, buffered := n, circuitToken := true))
  {
    s' := Counts(c, s, e, n);
    s' := GoProbe(c, s', e);
    s' := GoProbe(c, s', e);
  }

  lemma Counts(c: Config, s: State, e: nat, n: nat) returns (s': State)
    requires Reach(c, s) && HasBeenStarted(s.bp, e) && e < |s.ins| && e < |c.maxIn| && e < |c.batchCap|
    requires n <= c.batchCap[e] && s.ins[e].pc.Idle?
    ensures Reach(c, s') && s'.ins == s.ins[e := s.ins[e].(pc := AddingBuffered(false, n))]
    ensures s' == s.(ins := s'.ins, past := s'.past, shared := s.shared.(total := s.shared.total + n))
  {
    s' := Go(c, s, Deliver(e, false, n));
    s' := GoProbe(c, s', e);
  }

  /** The straddling batch reaches the endpoint's counter and fills it. */
  lemma Fills(c: Config, s: State, e: nat, n: nat) returns (s': State)
    requires Reach(c, s) && e < |s.ins| && e < |c.maxIn| && n >= c.maxIn[e] > s.ins[e].buffered == 0
    requires s.ins[e].pc == AddingEndpoint(false, n)
    ensures Reach(c, s') && |s'.ins| == |s.ins| && s'.ins[e].pc.Idle? && s'.ins[e].buffered == n
    ensures forall d :: 0 <= d < |s.ins| && d != e ==> s'.ins[d] == s.ins[d]
    ensures s' == s.(ins := s'.ins, shared := s.shared.(backpressureToken := true))
  {
    s' := GoProbe(c, s, e);
    s' := GoProbe(c, s', e);
  }

  /** The batch of endpoint `e` is processed before the endpoint has counted it. */
  lemma Overtakes(c: Config, s: State, e: nat, n: nat) returns (s': State)
    requires Reach(c, s) && s.circuit.pc == Top(c) && !s.circuit.armed && HasRoom(c, s.outs) && s.shared.buffered == 0
    requires forall d :: 0 <= d < |s.ins| ==> s.ins[d].buffered == 0 && s.ins[d].pc.Idle?
    requires e < |s.ins| && e < |c.maxIn| && e < |c.batchCap| && 0 < n <= c.batchCap[e] && HasBeenStarted(s.bp, e)
    ensures Reach(c, s') && s'.circuit.pc.ParkedEmpty? && !s'.circuit.armed && !s'.shared.circuitToken
    ensures s'.shared.buffered == 0 && s'.shared.desired == s.shared.desired && s'.bp == s.bp &&
        s'.clientWaking == s.clientWaking
    ensures |s'.ins| == |s.ins| && s'.ins[e].pc == AddingEndpoint(false, n) && s'.ins[e].buffered == 0
    ensures forall d :: 0 <= d < |s.ins| && d != e ==> s'.ins[d].pc.Idle?
  {
    s' := HalfCount(c, s, e, n);
    s' := DecidesToStep(c, s');
    s' := Iterate(c, s');
    s' := Rests(c, s');
  }

  lemma Starve(c: Config, e: nat) returns (s: State)
    requires c.Valid() && OutputsHaveRoom(c) && e < |c.maxIn| && 0 < c.maxIn[e] <= c.batchCap[e]
    ensures Reach(c, s) && Starved(c, s, e)
  {
    s := StartAll(c);
    AtRest(c, s, e);
    var commands := s.bp.commands;
    s := Overtakes(c, s, e, c.batchCap[e]);
    s := Fills(c, s, e, c.batchCap[e]);
    s := WakeAndScan(c, s);
    AtRest(c, s, e);
    assert |commands[e]| <= |s.bp.commands[e]|;
  }

  lemma StarveAtOnce(c: Config, e: nat) returns (s: State)
    requires c.Valid() && OutputsHaveRoom(c) && e < |c.maxIn| && c.maxIn[e] == 0
    ensures Reach(c, s) && Starved(c, s, e)
  {
    s := StartAll(c);
    s := ParksEmpty(c, s);
    AtRest(c, s, e);
  }

  /** An endpoint can be left paused with nothing to reset its counter exactly when a
      single batch may fill it. */
  lemma StarvationExactly(c: Config, e: nat)
    requires c.Valid() && OutputsHaveRoom(c) && e < |c.maxIn|
    ensures (exists s :: Reach(c, s) && Starved(c, s, e)) <==> c.batchCap[e] >= c.maxIn[e]
  {
    if s :| Reach(c, s) && Starved(c, s, e) {
      ReachInv(c, s);
      NoDrift(c, s, e);
    }
    if c.maxIn[e] == 0 {
      var s := StarveAtOnce(c, e);
    } else if c.batchCap[e] >= c.maxIn[e] {
      var s := Starve(c, e);
    }
  }

  // ---------------------------------------------------------------- end of input

  /** The circuit thread sleeps without a token although records are counted, and nobody
      is about to wake it. */
  ghost predicate LostWakeup(s: State) {
    s.circuit.pc.ParkedEmpty? && !s.shared.circuitToken && s.shared.buffered > 0 && !ProbeWaking(s.ins)
  }

  lemma LoseWakeup(c: Config, e: nat, n: nat) returns (s: State)
    requires c.Valid() && OutputsHaveRoom(c) && e < |c.maxIn| && c.maxIn[e] > 0
    requires n in c.eoiCounts && n <= c.batchCap[e] && !(n == 0 || 0 < c.minBatch <= n)
    ensures Reach(c, s) && LostWakeup(s)
  {
    s := StartAll(c);
    AtRest(c, s, e);
    s := ParksEmpty(c, s);
    var ins := s.ins;
    s := Go(c, s, Deliver(e, true, n));
    s := Go(c, s, ProbeStep(e));
    s := Go(c, s, ProbeStep(e));
    assert s.ins[e].pc == AddingEndpoint(true, n);
    assert forall d :: 0 <= d < |s.ins| && d != e ==> s.ins[d] == ins[d];
  }

  lemma ParkedEmptyHasRoom(c: Config, s: State)
    requires Inv(c, s) && s.circuit.pc.ParkedEmpty?
    ensures OutputsHaveRoom(c)
  {
    forall i | 0 <= i < |c.maxOut| ensures c.maxOut[i] > 0 {
      assert OutputInv(c, s.circuit.pc, s.past, s.outs[i], i);
    }
  }

  /** A wake-up of the circuit thread can be lost exactly when the circuit can run at all
      and some endpoint that is started may end with records that do not reach the minimal
      batch size. */
  lemma LostWakeupExactly(c: Config)
    requires c.Valid()
    ensures (exists s :: Reach(c, s) && LostWakeup(s)) <==> OutputsHaveRoom(c) && !EoiSafe(c)
  {
    if s :| Reach(c, s) && LostWakeup(s) {
      ReachInv(c, s);
      ParkedEmptyHasRoom(c, s);
    }
    if OutputsHaveRoom(c) && !EoiSafe(c) {
      var e, n :|
        && 0 <= e < |c.batchCap| && e < |c.maxIn| && c.maxIn[e] > 0
        && n in c.eoiCounts && n <= c.batchCap[e] && !(n == 0 || 0 < c.minBatch <= n);
      var s := LoseWakeup(c, e, n);
    }
  }
}
