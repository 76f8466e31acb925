/**
 The backpressure thread: the commands it sends, what each scan leaves behind, and when
 it may sleep.
 */
module ControllerBackpressure {
  import opened ControllerModel
  import opened ControllerShape

  /** Commands alternate, beginning with `Start`. */
  ghost predicate Alternates(commands: seq<Command>) {
    forall k :: 0 <= k < |commands| ==> commands[k] == if k % 2 == 0 then Start else Pause
  }

  /** The last command sent was `Start`. */
  predicate Started(commands: seq<Command>) {
    commands != [] && commands[|commands| - 1] == Start
  }

  /** What the thread's local variables say about endpoint `e`. */
  predicate Believed(bp: Backpressure, e: nat) {
    match bp.pc
    case Scanning(todo) => e !in bp.paused && (e in todo ==> !bp.globalPause)
    case Acting(todo, _, _) => e !in bp.paused && (e in todo ==> !bp.globalPause)
    case Pausing(todo) => e in todo && e !in bp.paused
    case _ => e !in bp.paused && !bp.globalPause
  }

  ghost predicate CommandsInv(c: Config, bp: Backpressure) {
    && BackpressureShape(c, bp)
    && (bp.pc.Pausing? ==> !bp.globalPause)
    && forall e :: 0 <= e < |bp.commands| ==>
         Alternates(bp.commands[e]) && (Started(bp.commands[e]) <==> Believed(bp, e))
  }

  /** Endpoints the current scan has not looked at yet. */
  function Unseen(pc: BackpressurePc): set<nat> {
    match pc
    case Scanning(todo) => todo
    case Acting(todo, e, _) => todo - {e}
    case _ => {}
  }

  /** Endpoints the current scan has not acted on yet. */
  function Undone(pc: BackpressurePc): set<nat> {
    match pc
    case Scanning(todo) => todo
    case Acting(todo, _, _) => todo
    case _ => {}
  }

  ghost predicate ScanInv(c: Config, bp: Backpressure) {
    && BackpressureShape(c, bp)
    && (bp.pc.Scanning? || bp.pc.Acting? ==> bp.sawRunning)
    && (bp.pc.Pausing? ==> !bp.sawRunning)
    && (bp.pc.BackpressureParked? ==> bp.sawRunning == !bp.globalPause)
    && (bp.pc.Acting? ==> bp.sawFull[bp.pc.e] == bp.pc.full)
    && (!bp.pc.Looking? && bp.sawRunning ==>
          forall e :: 0 <= e < |bp.sawFull| && e !in Undone(bp.pc) ==> (e in bp.paused <==> bp.sawFull[e]))
  }

  /** An endpoint with limit 0 always reads as full, so it is never started. */
  ghost predicate LimitsInv(c: Config, bp: Backpressure) {
    && BackpressureShape(c, bp)
    && (bp.pc.Acting? && c.maxIn[bp.pc.e] == 0 ==> bp.pc.full)
    && forall e :: 0 <= e < |bp.commands| && c.maxIn[e] == 0 ==> bp.commands[e] == []
  }

  lemma AlternatesAppend(commands: seq<Command>, command: Command)
    requires Alternates(commands) && Started(commands) == (command == Pause)
    ensures Alternates(commands + [command]) && Started(commands + [command]) == (command == Start)
  {
  }

  lemma ObeyKeeps(c: Config, bp: Backpressure, todo: set<nat>, e: nat, full: bool)
    requires CommandsInv(c, bp) && bp.pc == Acting(todo, e, full)
    ensures CommandsInv(c, NextScan(Obey(bp, e, full), todo - {e}))
  {
    if full && !bp.globalPause && e !in bp.paused {
      AlternatesAppend(bp.commands[e], Pause);
    } else if !full && (bp.globalPause || e in bp.paused) {
      AlternatesAppend(bp.commands[e], Start);
    }
  }

  lemma CommandsMove(c: Config, desired: Mode, bp: Backpressure)
    requires CommandsInv(c, bp)
    ensures CommandsInv(c, BackpressureMove(c, desired, bp))
  {
    if bp.pc.Acting? {
      ObeyKeeps(c, bp, bp.pc.todo, bp.pc.e, bp.pc.full);
    }
  }

  lemma CommandsReadFull(c: Config, s: State, e: nat)
    requires CommandsInv(c, s.bp) && ScanInv(c, s.bp)
    requires s.bp.pc.Scanning? && e in s.bp.pc.todo && e < |s.ins| && e < |c.maxIn|
    ensures CommandsInv(c, ReadFullApply(c, s, e).bp) && ScanInv(c, ReadFullApply(c, s, e).bp)
  {
  }

  lemma CommandsPause(c: Config, s: State, e: nat)
    requires CommandsInv(c, s.bp) && ScanInv(c, s.bp) && s.bp.pc.Pausing? && e in s.bp.pc.todo
    ensures CommandsInv(c, PauseEndpointApply(s, e).bp) && ScanInv(c, PauseEndpointApply(s, e).bp)
  {
    var bp, bp' := s.bp, PauseEndpointApply(s, e).bp;
    if e !in bp.paused {
      AlternatesAppend(bp.commands[e], Pause);
    }
    forall d | 0 <= d < |bp'.commands|
      ensures Alternates(bp'.commands[d]) && (Started(bp'.commands[d]) <==> Believed(bp', d))
    {
      assert Alternates(bp.commands[d]) && (Started(bp.commands[d]) <==> Believed(bp, d));
    }
  }

  lemma ScanMove(c: Config, desired: Mode, bp: Backpressure)
    requires ScanInv(c, bp)
    ensures ScanInv(c, BackpressureMove(c, desired, bp))
  {
  }

  lemma LimitsMove(c: Config, desired: Mode, bp: Backpressure)
    requires CommandsInv(c, bp) && LimitsInv(c, bp)
    ensures LimitsInv(c, BackpressureMove(c, desired, bp))
  {
    BackpressureShapeMove(c, desired, bp);
    if bp.pc.Acting? {
      assert Started(bp.commands[bp.pc.e]) <==> Believed(bp, bp.pc.e);
    }
  }

  lemma LimitsPause(c: Config, s: State, e: nat)
    requires CommandsInv(c, s.bp) && LimitsInv(c, s.bp) && s.bp.pc.Pausing? && e in s.bp.pc.todo
    ensures LimitsInv(c, PauseEndpointApply(s, e).bp)
  {
    assert Started(s.bp.commands[e]) <==> Believed(s.bp, e);
  }

  // ---------------------------------------------------------------- wake-ups

  /** Somebody has changed what the thread looks at and has yet to unpark it, or has
      already left it a token. */
  ghost predicate WakePending(s: State) {
    || s.shared.backpressureToken
    || s.clientWaking
    || s.circuit.pc.ResettingEndpoints? || s.circuit.pc.ReadingTotal? || s.circuit.pc.WakingBackpressureThread?
    || exists e :: 0 <= e < |s.ins| && s.ins[e].pc.WakingBackpressure?
  }

  /** Nothing follows on this endpoint, so its counter no longer matters. */
  predicate Ending(p: Probe) {
    p.pc.SettingEoi? || p.pc.Finished?
  }

  ghost predicate UpToDate(c: Config, desired: Mode, ins: seq<Probe>, bp: Backpressure) {
    && (bp.sawRunning <==> desired == Running)
    && (bp.sawRunning ==>
          forall e :: 0 <= e < |ins| && e < |bp.sawFull| && e < |c.maxIn| && e !in Unseen(bp.pc) ==>
            Ending(ins[e]) || (bp.sawFull[e] <==> ins[e].buffered >= c.maxIn[e]))
  }

  ghost predicate Synced(c: Config, s: State) {
    s.bp.pc.Looking? || WakePending(s) || UpToDate(c, s.shared.desired, s.ins, s.bp)
  }

  lemma SyncedDeliver(c: Config, s: State, e: nat, eoi: bool, n: nat)
    requires Synced(c, s) && e < |s.ins| && s.ins[e].pc.Idle?
    ensures Synced(c, DeliverApply(s, e, eoi, n))
  {
    WakePendingElsewhere(s, DeliverApply(s, e, eoi, n), e);
  }

  /** A probe that is not about to unpark the thread may move without losing a wake-up. */
  lemma WakePendingElsewhere(s: State, s': State, e: nat)
    requires e < |s.ins| == |s'.ins| && s'.ins == s.ins[e := s'.ins[e]]
    requires !s.ins[e].pc.WakingBackpressure?
    requires s'.shared.backpressureToken == s.shared.backpressureToken
    requires s'.clientWaking == s.clientWaking && s'.circuit == s.circuit
    ensures WakePending(s) ==> WakePending(s')
  {
    if w :| 0 <= w < |s.ins| && s.ins[w].pc.WakingBackpressure? {
      assert s'.ins[w].pc.WakingBackpressure?;
    }
  }

  lemma SyncedProbe(c: Config, s: State, e: nat)
    requires Synced(c, s) && ProbeEnabled(c, s, e)
    ensures Synced(c, ProbeApply(c, s, e))
  {
    var s' := ProbeApply(c, s, e);
    if !s.ins[e].pc.WakingBackpressure? {
      WakePendingElsewhere(s, s', e);
      if s.ins[e].pc.AddingEndpoint? && s'.ins[e].pc.WakingBackpressure? {
        assert WakePending(s');
      }
    }
  }

  lemma SyncedCircuit(c: Config, s: State)
    requires Synced(c, s) && CircuitEnabled(s)
    ensures Synced(c, CircuitApply(c, s))
  {
    var s' := CircuitApply(c, s);
    if s.circuit.pc.ResettingGlobal? || s.circuit.pc.ReadingTotal? || s.circuit.pc.WakingBackpressureThread? {
      assert WakePending(s');
    } else {
      assert s'.ins == s.ins;
    }
  }

  lemma SyncedReset(c: Config, s: State, e: nat)
    requires s.circuit.pc.ResettingEndpoints? && e < |s.ins|
    ensures Synced(c, ResetEndpointApply(s, e))
  {
    assert WakePending(ResetEndpointApply(s, e));
  }

  lemma SyncedBackpressure(c: Config, s: State)
    requires Synced(c, s) && BackpressureShape(c, s.bp) && |s.ins| == |c.maxIn| && BackpressureEnabled(s)
    ensures Synced(c, BackpressureApply(c, s))
  {
    var s' := BackpressureApply(c, s);
    assert s'.bp.pc.Looking? || (WakePending(s) ==> WakePending(s'));
  }

  lemma SyncedReadFull(c: Config, s: State, e: nat)
    requires Synced(c, s) && s.bp.pc.Scanning? && e in s.bp.pc.todo && e < |s.ins| && e < |c.maxIn|
    requires e < |s.bp.sawFull|
    ensures Synced(c, ReadFullApply(c, s, e))
  {
  }

  lemma SyncedPause(c: Config, s: State, e: nat)
    requires Synced(c, s) && ScanInv(c, s.bp) && s.bp.pc.Pausing? && e in s.bp.pc.todo
    ensures Synced(c, PauseEndpointApply(s, e))
  {
  }
}
