/** What every reachable state satisfies. */
module CompilerInvariant {
  import opened CompilerModel

  /** The code of a version never changes, and the store holds the code of its version. */
  ghost predicate Versions(d: Store) {
    && (forall id :: id in d.projects ==> id < d.nextId && d.projects[id].since <= d.now)
    && (forall id :: id in d.projects ==> CodeIs(d, id, d.projects[id].version, d.projects[id].code))
    && (forall k :: k in d.codes ==> k.0 < d.nextId)
    && (forall k :: k in d.codes && k.0 in d.projects ==> k.1 <= d.projects[k.0].version)
  }

  ghost predicate CodeIs(d: Store, id: nat, version: nat, code: Code) {
    (id, version) in d.codes && d.codes[(id, version)] == code
  }

  /** One process at most: that of the job. */
  ghost predicate Processes(l: Loop) {
    && (forall p :: p in l.live ==> p < l.nextProcess)
    && match l.pc
       case Waiting => l.live == if l.job.Some? then {l.job.value.process} else {}
       case Marking => l.job.Some? && l.live == {l.job.value.process} && l.job.value.stage == Sql
       case Picking => l.job.None? && l.live == {}
       case Picked(_, _, _) => l.job.None? && l.live == {}
       case Ended => l.job.None? && exists p: nat :: l.live <= {p}
  }

  /** The loop works on the code of the version it picked. */
  ghost predicate JobCode(d: Store, l: Loop) {
    && (l.job.Some? ==> CodeIs(d, l.job.value.id, l.job.value.version, l.job.value.code))
    && (l.pc.Picked? ==> CodeIs(d, l.pc.id, l.pc.version, l.pc.code))
  }

  /** What a job in its Rust stage works on is the output of its own SQL stage. */
  ghost predicate RustHasSql(l: Loop, disk: Disk, past: Past) {
    l.job.Some? && l.job.value.stage == Rust ==>
      var j := l.job.value;
      && j.id in disk.generated && disk.generated[j.id] == j.code
      && End(Sql, j.id, j.version, j.code, Succeeded) in past.ends
  }

  /** The SQL compiler starts without a Rust program. */
  ghost predicate SqlIsFirst(l: Loop, disk: Disk) {
    l.job.Some? && l.job.value.stage == Sql ==> l.job.value.id !in disk.generated
  }

  function CompilingStatus(stage: Stage): Status {
    if stage == Sql then CompilingSql else CompilingRust
  }

  /** The status of a project the loop is at work on. */
  ghost predicate Busy(d: Store, id: nat, version: nat, status: Status) {
    id in d.projects ==>
      && version <= d.projects[id].version
      && (d.projects[id].version == version ==> d.projects[id].status == status)
      && (d.projects[id].version > version ==> d.projects[id].status == NoStatus || d.projects[id].status == Pending)
  }

  ghost predicate JobStatus(d: Store, l: Loop) {
    && (l.job.Some? ==>
          Busy(d, l.job.value.id, l.job.value.version,
               if l.pc == Waiting then CompilingStatus(l.job.value.stage) else Pending))
    && (l.pc.Picked? ==> Busy(d, l.pc.id, l.pc.version, Pending))
  }

  /** While the loop lives, a project shows as compiling only if its job runs. */
  ghost predicate CompilingHasJob(d: Store, l: Loop) {
    l.pc != Ended ==>
      forall id :: id in d.projects && IsCompiling(d.projects[id].status) ==>
        && l.pc == Waiting && l.job.Some? && l.job.value.id == id && l.job.value.version == d.projects[id].version
        && d.projects[id].status == CompilingStatus(l.job.value.stage)
  }

  /** A project marked as compiled passed both stages, and its executable is up to date. */
  ghost predicate SuccessIsEarned(d: Store, disk: Disk, past: Past) {
    forall id :: id in d.projects && d.projects[id].status == Success ==> Earned(d.projects[id], disk, past, id)
  }

  ghost predicate Earned(p: Project, disk: Disk, past: Past, id: nat) {
    && End(Sql, id, p.version, p.code, Succeeded) in past.ends
    && id in disk.built && disk.built[id] == p.code
  }

  /** The verdicts on a version. */
  predicate IsVerdict(status: Status) {
    status != NoStatus && status != Pending && status != CompilingSql
  }

  /** The status that tells of the end of a stage. */
  ghost predicate Tells(status: Status, stage: Stage, outcome: Outcome) {
    match status
    case CompilingRust => stage == Sql && outcome == Succeeded
    case Success => stage == Rust && outcome == Succeeded
    case SqlError => stage == Sql && outcome == Failed(true)
    case RustError => stage == Rust && outcome.Failed?
    case SystemError => outcome == IoError || (stage == Sql && outcome == Failed(false))
    case _ => false
  }

  /** `ends[k]` is the last end of a stage on this version, and the status tells of it. */
  ghost predicate Judged(ends: seq<End>, k: int, p: Project, id: nat) {
    && 0 <= k < |ends|
    && ends[k].id == id && ends[k].version == p.version && ends[k].code == p.code
    && Tells(p.status, ends[k].stage, ends[k].outcome)
    && forall m :: k < m < |ends| ==> ends[m].id != id || ends[m].version != p.version
  }

  /** Every verdict is that of the last stage that ended on the stored version. */
  ghost predicate VerdictsAreReal(d: Store, past: Past) {
    forall id :: id in d.projects && IsVerdict(d.projects[id].status) ==>
      exists k :: Judged(past.ends, k, d.projects[id], id)
  }

  /** A write either opens a word or continues the one before it. */
  ghost predicate Continues(prev: Write, w: Write) {
    || w.status == CompilingSql
    || (w.id == prev.id && w.version == prev.version && match prev.status
      case CompilingSql => w.status == CompilingRust || w.status == SqlError || w.status == SystemError
      case CompilingRust => w.status == Success || w.status == RustError || w.status == SystemError
      case _ => false)
  }

  ghost predicate Legal(writes: seq<Write>) {
    && (writes != [] ==> writes[0].status == CompilingSql)
    && forall i :: 0 < i < |writes| ==> Continues(writes[i - 1], writes[i])
  }

  ghost predicate Trace(l: Loop, past: Past) {
    && Legal(past.writes)
    && (l.pc == Waiting && l.job.Some? ==>
      && past.writes != []
      && past.writes[|past.writes| - 1]
         == Write(l.job.value.id, l.job.value.version, CompilingStatus(l.job.value.stage)))
  }

  ghost predicate Inv(s: State) {
    && Versions(s.store)
    && Processes(s.loop) && JobCode(s.store, s.loop) && RustHasSql(s.loop, s.disk, s.past) && Trace(s.loop, s.past)
    && JobStatus(s.store, s.loop) && CompilingHasJob(s.store, s.loop) && SqlIsFirst(s.loop, s.disk)
    && SuccessIsEarned(s.store, s.disk, s.past) && VerdictsAreReal(s.store, s.past)
  }

  lemma InvInit(s: State)
    requires Init(s)
    ensures Inv(s)
  {
  }

  // ---------------------------------------------------------------- one part at a time

  lemma StatusKeepsVersions(d: Store, id: nat, status: Status)
    requires Versions(d) && id in d.projects
    ensures Versions(SetStatus(d, id, status))
  {
  }

  lemma VersionsStep(s: State, step: Step)
    requires Versions(s.store) && Enabled(s, step)
    ensures Versions(StoreAfter(s, step))
  {
    var d := s.store;
    if step.CompileProject? && step.id in d.projects {
      StatusKeepsVersions(d, step.id, Pending);
    } else if (step.Exit? || step.MarkSql?) && s.loop.job.value.id in d.projects {
      var j := s.loop.job.value;
      StatusKeepsVersions(d, j.id, if step.Exit? then StatusAfter(j.stage, step.outcome) else CompilingSql);
    }
  }

  /** No step changes the code of a version. */
  lemma CodesKept(s: State, step: Step)
    requires Versions(s.store) && Enabled(s, step)
    ensures forall k :: k in s.store.codes ==>
              k in StoreAfter(s, step).codes && StoreAfter(s, step).codes[k] == s.store.codes[k]
  {
  }

  lemma ProcessesStep(s: State, step: Step)
    requires Processes(s.loop) && Enabled(s, step)
    ensures Processes(LoopAfter(s, step))
  {
    if step.Fail? && s.loop.pc != Ended {
      var p: nat := if s.loop.job.Some? then s.loop.job.value.process else 0;
      assert s.loop.live <= {p};
    } else if step.MarkSql? {
      assert s.loop.live <= {s.loop.job.value.process};
    } else if step.Exit? {
      assert s.loop.live - {s.loop.job.value.process} <= {0};
    }
  }

  lemma JobCodeStep(s: State, step: Step)
    requires Versions(s.store) && JobCode(s.store, s.loop) && RustHasSql(s.loop, s.disk, s.past) && Processes(s.loop)
    requires Enabled(s, step)
    ensures JobCode(StoreAfter(s, step), LoopAfter(s, step))
    ensures RustHasSql(LoopAfter(s, step), DiskAfter(s, step), PastAfter(s, step))
  {
    CodesKept(s, step);
  }

  lemma SqlIsFirstStep(s: State, step: Step)
    requires SqlIsFirst(s.loop, s.disk) && Enabled(s, step)
    ensures SqlIsFirst(LoopAfter(s, step), DiskAfter(s, step))
  {
  }

  lemma TraceStep(s: State, step: Step)
    requires Trace(s.loop, s.past) && Processes(s.loop) && Enabled(s, step)
    ensures Trace(LoopAfter(s, step), PastAfter(s, step))
  {
  }

  lemma JobStatusStep(s: State, step: Step)
    requires Versions(s.store) && JobCode(s.store, s.loop) && Processes(s.loop) && JobStatus(s.store, s.loop)
    requires Enabled(s, step)
    ensures JobStatus(StoreAfter(s, step), LoopAfter(s, step))
  {
  }

  lemma CompilingStep(s: State, step: Step)
    requires Processes(s.loop) && JobStatus(s.store, s.loop) && CompilingHasJob(s.store, s.loop) && Enabled(s, step)
    ensures CompilingHasJob(StoreAfter(s, step), LoopAfter(s, step))
  {
  }

  lemma SuccessStep(s: State, step: Step)
    requires Versions(s.store) && JobCode(s.store, s.loop) && RustHasSql(s.loop, s.disk, s.past)
    requires JobStatus(s.store, s.loop) && SuccessIsEarned(s.store, s.disk, s.past) && Enabled(s, step)
    ensures SuccessIsEarned(StoreAfter(s, step), DiskAfter(s, step), PastAfter(s, step))
  {
  }

  /** The end of a stage on another version, or on none, changes no verdict. */
  lemma StillJudged(ends: seq<End>, p: Project, id: nat, end: End)
    requires exists k :: Judged(ends, k, p, id)
    requires end.id != id || end.version != p.version
    ensures exists k :: Judged(ends + [end], k, p, id)
  {
    var k :| Judged(ends, k, p, id);
    assert Judged(ends + [end], k, p, id);
  }

  lemma VerdictsExit(s: State, outcome: Outcome)
    requires VerdictsAreReal(s.store, s.past) && JobCode(s.store, s.loop) && Versions(s.store)
    requires Enabled(s, Exit(outcome))
    ensures VerdictsAreReal(StoreAfter(s, Exit(outcome)), PastAfter(s, Exit(outcome)))
  {
    var j, d := s.loop.job.value, StoreAfter(s, Exit(outcome));
    var end := End(j.stage, j.id, j.version, j.code, outcome);
    var ends := s.past.ends + [end];
    forall id | id in d.projects && IsVerdict(d.projects[id].status)
      ensures exists k :: Judged(ends, k, d.projects[id], id)
    {
      if id == j.id && d.projects[id].version == j.version {
        assert CodeIs(s.store, id, j.version, d.projects[id].code);
        assert Judged(ends, |s.past.ends|, d.projects[id], id);
      } else {
        assert d.projects[id] == s.store.projects[id];
        StillJudged(s.past.ends, d.projects[id], id, end);
      }
    }
  }

  lemma VerdictsStep(s: State, step: Step)
    requires Inv(s) && Enabled(s, step)
    ensures VerdictsAreReal(StoreAfter(s, step), PastAfter(s, step))
  {
    if step.Exit? {
      VerdictsExit(s, step.outcome);
    } else {
      var d := StoreAfter(s, step);
      forall id | id in d.projects && IsVerdict(d.projects[id].status)
        ensures exists k :: Judged(s.past.ends, k, d.projects[id], id)
      {
        assert d.projects[id] == s.store.projects[id];
      }
    }
  }

  lemma InvStep(s: State, step: Step)
    requires Inv(s) && Enabled(s, step)
    ensures Inv(Apply(s, step))
  {
    VersionsStep(s, step);
    ProcessesStep(s, step);
    JobCodeStep(s, step);
    TraceStep(s, step);
    SqlIsFirstStep(s, step);
    JobStatusStep(s, step);
    CompilingStep(s, step);
    SuccessStep(s, step);
    VerdictsStep(s, step);
  }

  lemma {:induction false} InvRun(run: seq<State>, steps: seq<Step>, i: nat)
    requires IsRun(run, steps) && i < |run|
    ensures Inv(run[i])
  {
    if i == 0 {
      InvInit(run[0]);
    } else {
      InvRun(run, steps, i - 1);
      assert StepAt(run, steps, i - 1);
      InvStep(run[i - 1], steps[i - 1]);
    }
  }
}
