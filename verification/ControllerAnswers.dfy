/**
 The answer of `pipeline_complete` is the truth.  Its reads happen at different moments, so
 the truth is that of one moment: an answer false was true of the pipeline when the last read
 of the call happened, an answer true holds when it is given, and a completed pipeline stays
 completed.  So a call that starts after completion answers true, whatever runs beside it.
 */
module ControllerAnswers {
  import opened Basics
  import opened ControllerModel
  import opened ControllerShape
  import opened ControllerDrift
  import opened ControllerMonitor
  import opened ControllerInvariant
  import opened ControllerTheorems
  import opened ControllerWakeups
  import opened ControllerWitnesses
  import opened ControllerCompletion

  lemma OthersDoNotAnswer(c: Config, s: State, step: Step)
    requires Enabled(c, s, step) && !step.MonitorCalls? && !step.MonitorReads?
    ensures Apply(c, s, step).monitor == s.monitor
  {
  }

  // ---------------------------------------------------------------- completion is for good

  /** Complete, except perhaps for the labels of some endpoints. */
  ghost predicate CompleteBut(s: State, todo: set<nat>) {
    && (forall e :: 0 <= e < |s.ins| ==> s.ins[e].eoi)
    && s.shared.processed == s.shared.total
    && forall i :: 0 <= i < |s.outs| && i !in todo ==> s.outs[i].frontier == s.shared.total
  }

  /** After the end of all inputs nothing is added to the total. */
  lemma EndedStep(c: Config, s: State, step: Step)
    requires ProbesInv(c, s) && Enabled(c, s, step) && AllEoi(s.ins, {})
    ensures AllEoi(Apply(c, s, step).ins, {}) && Apply(c, s, step).shared.total == s.shared.total
  {
    assert forall e :: 0 <= e < |s.ins| ==> s.ins[e].pc.Finished?;
  }

  /** Nothing is labelled with more than the total. */
  lemma LabelsBelowTotal(c: Config, s: State)
    requires Inv(c, s) && AllEoi(s.ins, {})
    ensures s.shared.processed <= s.shared.total
    ensures forall i :: 0 <= i < |s.outs| ==> s.outs[i].frontier <= s.shared.total
  {
    TotalIsFinal(c, s);
    forall i | 0 <= i < |s.outs| ensures s.outs[i].frontier <= s.shared.total {
      LabelStep(c, s, i);
    }
  }

  lemma CompleteButStep(c: Config, s: State, step: Step, todo: set<nat>)
    requires Inv(c, s) && Enabled(c, s, step) && CompleteBut(s, todo)
    ensures CompleteBut(Apply(c, s, step), todo) && Apply(c, s, step).shared.total == s.shared.total
  {
    var s' := Apply(c, s, step);
    EndedStep(c, s, step);
    InvStep(c, s, step);
    LabelsBelowTotal(c, s');
    ProcessedStep(c, s, step);
    forall i | 0 <= i < |s'.outs| && i !in todo ensures s'.outs[i].frontier == s'.shared.total {
      assert |s'.outs| == |c.maxOut| == |s.outs|;
      LabelsStep(c, s, step, i);
    }
  }

  lemma CompleteNext(c: Config, run: seq<State>, k: nat)
    requires IsRun(c, run) && k + 1 < |run| && PipelineComplete(run[k])
    ensures PipelineComplete(run[k + 1]) && run[k + 1].shared.total == run[k].shared.total
  {
    NextOf(c, run, k);
    var step :| Enabled(c, run[k], step) && run[k + 1] == Apply(c, run[k], step);
    CompleteButStep(c, run[k], step, {});
  }

  /** A completed pipeline stays completed, whatever its threads, the client and the
      transports do. */
  lemma {:induction false} CompleteStays(c: Config, run: seq<State>, j: nat, k: nat)
    requires IsRun(c, run) && j <= k < |run| && PipelineComplete(run[j])
    ensures PipelineComplete(run[k]) && run[k].shared.total == run[j].shared.total
    decreases k
  {
    if j < k {
      CompleteStays(c, run, j, k - 1);
      CompleteNext(c, run, k - 1);
    }
  }

  // ---------------------------------------------------------------- every answer is true

  /** What the reads made so far have established, for good. */
  ghost predicate Established(s: State) {
    match s.monitor
    case ReadingFrontiers(total, todo) => CompleteBut(s, todo)
    case Complete => CompleteBut(s, {})
    case _ => true
  }

  /** A read that finds nothing missing goes on; the others answer false. */
  lemma ReadEstablishes(c: Config, s: State, k: nat)
    requires Shape(c, s) && Watched(s) && Established(s) && MonitorEnabled(s, k)
    ensures Established(s.(monitor := MonitorMove(c, s, k)))
    ensures PipelineComplete(s) ==> !MonitorMove(c, s, k).Incomplete?
  {
    match s.monitor
    case ReadingProcessed(total) =>
      assert forall i :: 0 <= i < |s.outs| ==> i in c.Outputs();
    case _ =>
  }

  lemma EstablishedOther(c: Config, s: State, step: Step)
    requires Inv(c, s) && Established(s) && Enabled(c, s, step) && !step.MonitorCalls? && !step.MonitorReads?
    ensures Established(Apply(c, s, step)) && Apply(c, s, step).monitor == s.monitor
  {
    OthersDoNotAnswer(c, s, step);
    match s.monitor
    case ReadingFrontiers(_, todo) => CompleteButStep(c, s, step, todo);
    case Complete => CompleteButStep(c, s, step, {});
    case _ =>
  }

  lemma EstablishedStep(c: Config, s: State, step: Step)
    requires Inv(c, s) && Enabled(c, s, step) && Established(s)
    ensures Established(Apply(c, s, step))
    ensures PipelineComplete(s) && Apply(c, s, step).monitor.Incomplete? ==> s.monitor.Incomplete?
  {
    match step
    case MonitorCalls =>
    case MonitorReads(e) => ReadEstablishes(c, s, e);
    case _ => EstablishedOther(c, s, step);
  }

  lemma EstablishedNext(c: Config, run: seq<State>, k: nat)
    requires IsRun(c, run) && k + 1 < |run| && Established(run[k])
    ensures Established(run[k + 1])
    ensures PipelineComplete(run[k]) && run[k + 1].monitor.Incomplete? ==> run[k].monitor.Incomplete?
  {
    NextOf(c, run, k);
    var step :| Enabled(c, run[k], step) && run[k + 1] == Apply(c, run[k], step);
    EstablishedStep(c, run[k], step);
  }

  lemma {:induction false} EstablishedRun(c: Config, run: seq<State>, k: nat)
    requires IsRun(c, run) && k < |run|
    ensures Established(run[k])
  {
    if k > 0 {
      EstablishedRun(c, run, k - 1);
      EstablishedNext(c, run, k - 1);
    }
  }

  /** An answer true holds at the moment it is given, and ever after. */
  lemma TrueIsTrue(c: Config, run: seq<State>, k: nat)
    requires IsRun(c, run) && k < |run| && run[k].monitor.Complete?
    ensures PipelineComplete(run[k])
  {
    EstablishedRun(c, run, k);
  }

  /** An answer false held at the read that gave it: some endpoint had not ended, or the
      processed records or some label differed from the total. */
  lemma FalseIsTrue(c: Config, run: seq<State>, k: nat)
    requires IsRun(c, run) && k + 1 < |run| && run[k + 1].monitor.Incomplete? && !run[k].monitor.Incomplete?
    ensures !PipelineComplete(run[k])
  {
    EstablishedRun(c, run, k);
    EstablishedNext(c, run, k);
  }

  /** After completion no read answers false, in whatever order and between whatever steps of
      the other threads the reads happen. */
  lemma {:induction false} CompleteAnswersTrue(c: Config, run: seq<State>, j: nat, k: nat)
    requires IsRun(c, run) && j <= k < |run| && PipelineComplete(run[j]) && !run[j].monitor.Incomplete?
    ensures !run[k].monitor.Incomplete?
    decreases k
  {
    if j < k {
      CompleteAnswersTrue(c, run, j, k - 1);
      CompleteStays(c, run, j, k - 1);
      if run[k].monitor.Incomplete? {
        FalseIsTrue(c, run, k - 1);
      }
    }
  }

  // ---------------------------------------------------------------- every call answers

  /** The reads that a call may still make. */
  function ReadsLeft(c: Config, m: MonitorPc): nat {
    match m
    case ReadingEois(todo) => |todo| + 2 + |c.Outputs()|
    case ReadingTotalInput => 2 + |c.Outputs()|
    case ReadingProcessed(_) => 1 + |c.Outputs()|
    case ReadingFrontiers(_, todo) => |todo|
    case _ => 0
  }

  predicate Answered(m: MonitorPc) {
    m.Complete? || m.Incomplete?
  }

  /** Every read uses one up. */
  lemma ReadsLower(c: Config, s: State, k: nat)
    requires MonitorShape(c, s.monitor) && MonitorEnabled(s, k)
    ensures var m := MonitorMove(c, s, k);
            ReadsLeft(c, m) < ReadsLeft(c, s.monitor) && !m.MonitorIdle? && (ReadsLeft(c, m) == 0 <==> Answered(m))
  {
    match s.monitor
    case ReadingEois(todo) => SmallerSet(todo, k);
    case ReadingFrontiers(_, todo) => SmallerSet(todo, k);
    case _ =>
  }

  /** Until it has answered, a call has a read to make. */
  lemma CanRead(c: Config, s: State) returns (k: nat)
    requires Shape(c, s) && !s.monitor.MonitorIdle? && !Answered(s.monitor)
    ensures Enabled(c, s, MonitorReads(k))
  {
    k := 0;
    match s.monitor
    case ReadingEois(todo) => k :| k in todo;
    case ReadingFrontiers(_, todo) => k :| k in todo;
    case _ =>
  }

  /** The steps of a run, from `j` to `k`, that are reads of the monitor. */
  ghost function ReadsMade(run: seq<State>, j: nat, k: nat): nat
    requires j <= k < |run|
  {
    if j == k then 0
    else ReadsMade(run, j, k - 1) + if run[k].monitor == run[k - 1].monitor then 0 else 1
  }

  /** No new call begins between `j` and `k`. */
  ghost predicate SameCall(run: seq<State>, j: nat, k: nat)
    requires j <= k < |run|
  {
    !run[j].monitor.MonitorIdle? && forall m :: j <= m < k ==> !Answered(run[m].monitor)
  }

  /** A call makes at most one read per endpoint and two more. */
  lemma {:induction false} CallIsShort(c: Config, run: seq<State>, j: nat, k: nat)
    requires IsRun(c, run) && j <= k < |run| && SameCall(run, j, k)
    ensures !run[k].monitor.MonitorIdle?
    ensures ReadsMade(run, j, k) + ReadsLeft(c, run[k].monitor) <= |c.Inputs()| + |c.Outputs()| + 2
    decreases k
  {
    if j < k {
      assert !Answered(run[k - 1].monitor);
      CallIsShort(c, run, j, k - 1);
      ReadsNext(c, run, k - 1);
    } else {
      ReadsAtMost(c, run, j);
    }
  }

  lemma ReadsStep(c: Config, s: State, step: Step)
    requires MonitorShape(c, s.monitor) && Enabled(c, s, step) && !s.monitor.MonitorIdle? && !Answered(s.monitor)
    ensures var m, m' := s.monitor, Apply(c, s, step).monitor;
            m' == m || (ReadsLeft(c, m') < ReadsLeft(c, m) && !m'.MonitorIdle?)
  {
    match step
    case MonitorReads(e) => ReadsLower(c, s, e);
    case MonitorCalls =>
    case _ => OthersDoNotAnswer(c, s, step);
  }

  lemma ReadsNext(c: Config, run: seq<State>, k: nat)
    requires IsRun(c, run) && k + 1 < |run| && !run[k].monitor.MonitorIdle? && !Answered(run[k].monitor)
    ensures var m, m' := run[k].monitor, run[k + 1].monitor;
            m' == m || (ReadsLeft(c, m') < ReadsLeft(c, m) && !m'.MonitorIdle?)
  {
    NextOf(c, run, k);
    var step :| Enabled(c, run[k], step) && run[k + 1] == Apply(c, run[k], step);
    ReadsStep(c, run[k], step);
  }

  lemma ReadsAtMost(c: Config, run: seq<State>, k: nat)
    requires IsRun(c, run) && k < |run|
    ensures ReadsLeft(c, run[k].monitor) <= |c.Inputs()| + |c.Outputs()| + 2
  {
    InvRun(c, run, k);
    match run[k].monitor
    case ReadingEois(todo) => SubsetSize(todo, c.Inputs());
    case ReadingFrontiers(_, todo) => SubsetSize(todo, c.Outputs());
    case _ =>
  }

  // ---------------------------------------------------------------- calls by themselves

  lemma ReachEstablished(c: Config, s: State)
    requires Reach(c, s)
    ensures Established(s)
  {
    var run :| IsRun(c, run) && run[|run| - 1] == s;
    EstablishedRun(c, run, |run| - 1);
  }

  lemma ReadAlone(c: Config, s: State) returns (s': State)
    requires Reach(c, s) && !s.monitor.MonitorIdle? && !Answered(s.monitor)
    ensures Reach(c, s') && s' == s.(monitor := s'.monitor) && !s'.monitor.MonitorIdle?
    ensures ReadsLeft(c, s'.monitor) < ReadsLeft(c, s.monitor)
    ensures PipelineComplete(s) ==> !s'.monitor.Incomplete?
  {
    ReachInv(c, s);
    ReachEstablished(c, s);
    var k := CanRead(c, s);
    ReadsLower(c, s, k);
    ReadEstablishes(c, s, k);
    s' := Go(c, s, MonitorReads(k));
  }

  lemma {:induction false} FinishCall(c: Config, s: State) returns (s': State)
    requires Reach(c, s) && !s.monitor.MonitorIdle?
    ensures Reach(c, s') && s' == s.(monitor := s'.monitor) && Answered(s'.monitor)
    ensures PipelineComplete(s) && !s.monitor.Incomplete? ==> s'.monitor.Complete?
    decreases ReadsLeft(c, s.monitor)
  {
    s' := s;
    if !Answered(s.monitor) {
      s' := ReadAlone(c, s);
      s' := FinishCall(c, s');
    }
  }

  lemma Call(c: Config, s: State) returns (s': State)
    requires Reach(c, s) && (s.monitor.MonitorIdle? || Answered(s.monitor))
    ensures Reach(c, s') && s' == s.(monitor := NextEoi(c.Inputs()))
  {
    s' := Go(c, s, MonitorCalls);
  }

  /** A call by itself, from any reachable state, answers whether the pipeline is complete. */
  lemma AnswerAlone(c: Config, s: State) returns (s': State)
    requires Reach(c, s)
    ensures Reach(c, s') && s' == s.(monitor := if PipelineComplete(s) then Complete else Incomplete)
  {
    s' := s;
    if !s.monitor.MonitorIdle? {
      s' := FinishCall(c, s);
    }
    s' := Call(c, s');
    s' := FinishCall(c, s');
    ReachEstablished(c, s');
  }

  /** So every run of the threads after the end of all inputs comes to a state in which a call
      of `pipeline_complete` answers true. */
  lemma EveryRunAnswersTrue(c: Config, f: nat -> State, looks: nat -> nat) returns (m: nat, s: State)
    requires IsHistory(c, f, looks) && EoiSafe(c) && OutputsHaveRoom(c)
    ensures Reach(c, s) && s == f(m).(monitor := Complete)
  {
    m := RunStops(c, f, looks, 0);
    RestIsComplete(c, f(m));
    s := AnswerAlone(c, f(m));
  }
}
