/**
 The compile-job loop of the pipeline manager and the part of the project database it
 shares with the users' requests.

 Every request and every section of the loop that holds the database lock is one step, so a
 run is any interleaving of the two.
 */
module CompilerModel {
  import opened Basics

  type Code = string

  datatype Status = NoStatus | Pending | CompilingSql | CompilingRust | Success | SqlError | RustError | SystemError

  predicate IsCompiling(status: Status) {
    status == CompilingRust || status == CompilingSql
  }

  /** `since` is the time, in whole seconds, of the last status write. */
  datatype Project = Project(version: nat, code: Code, status: Status, since: nat)

  /** The database.  History: `codes` keeps the code of every version of every project. */
  datatype Store = Store(projects: map<nat, Project>, nextId: nat, now: nat, codes: map<(nat, nat), Code>)

  datatype Stage = Sql | Rust

  datatype Job = Job(stage: Stage, id: nat, version: nat, code: Code, process: nat)

  /** Where the loop stands: waiting in `select!`, about to look for a project, holding the
      code of one, having started its SQL compiler, or returned with an error. */
  datatype Pc = Waiting | Picking | Picked(id: nat, version: nat, code: Code) | Marking | Ended

  /** The loop and the compiler processes that run. */
  datatype Loop = Loop(pc: Pc, job: Option<Job>, live: set<nat>, nextProcess: nat)

  /** The generated Rust program and the executable of each project, named by the SQL code
      they come from. */
  datatype Disk = Disk(generated: map<nat, Code>, built: map<nat, Code>)

  /** A call of `set_project_status_guarded`. */
  datatype Write = Write(id: nat, version: nat, status: Status)

  datatype Outcome = Succeeded | Failed(messages: bool) | IoError

  /** The end of a compiler stage that ran on `code`. */
  datatype End = End(stage: Stage, id: nat, version: nat, code: Code, outcome: Outcome)

  /** History. */
  datatype Past = Past(ends: seq<End>, writes: seq<Write>)

  datatype State = State(store: Store, loop: Loop, disk: Disk, past: Past)

  datatype Step =
    | NewProject(code: Code)
    | UpdateProject(id: nat, newCode: Option<Code>)
    | CompileProject(id: nat, version: nat)
    | CancelProject(id: nat, version: nat)
    | DeleteProject(id: nat)
    | Clock
    | Poll
    | Exit(outcome: Outcome)
    | PickNext(choice: Option<nat>)
    | SpawnSql
    | MarkSql
    | Fail

  // ---------------------------------------------------------------- the database

  function CreateProject(d: Store, code: Code): Store {
    d.(projects := d.projects[d.nextId := Project(1, code, NoStatus, d.now)],
       codes := d.codes[(d.nextId, 1) := code],
       nextId := d.nextId + 1)
  }

  /** Only code that differs makes a new version. */
  function ChangeProject(d: Store, id: nat, newCode: Option<Code>): Store {
    if id !in d.projects || newCode.None? || newCode.value == d.projects[id].code then d
    else
      var version := d.projects[id].version + 1;
      d.(projects := d.projects[id := Project(version, newCode.value, NoStatus, d.projects[id].since)],
         codes := d.codes[(id, version) := newCode.value])
  }

  function SetStatus(d: Store, id: nat, status: Status): Store
    requires id in d.projects
  {
    d.(projects := d.projects[id := d.projects[id].(status := status, since := d.now)])
  }

  /** `set_project_pending`. */
  function RequestCompile(d: Store, id: nat, version: nat): Store {
    if id !in d.projects || d.projects[id].version != version then d
    else if d.projects[id].status == Pending || IsCompiling(d.projects[id].status) then d
    else SetStatus(d, id, Pending)
  }

  /** `cancel_project`. */
  function RequestCancel(d: Store, id: nat, version: nat): Store {
    if id !in d.projects || d.projects[id].version != version then d
    else if d.projects[id].status != Pending || !IsCompiling(d.projects[id].status) then d
    else SetStatus(d, id, NoStatus)
  }

  function Delete(d: Store, id: nat): Store {
    d.(projects := map k | k in d.projects && k != id :: d.projects[k])
  }

  /** `set_project_status_guarded`: outdated versions are ignored.  An unknown project is an
      error, which ends the loop. */
  function GuardedWrite(d: Store, id: nat, version: nat, status: Status): Store {
    if id in d.projects && d.projects[id].version == version then SetStatus(d, id, status) else d
  }

  /** `id` is pending and no pending project has waited longer. */
  ghost predicate Oldest(projects: map<nat, Project>, id: nat) {
    && id in projects && projects[id].status == Pending
    && forall other ::
         other in projects && projects[other].status == Pending ==> projects[id].since <= projects[other].since
  }

  /** What `next_job` may return: its query yields nothing unless it matches one row. */
  ghost predicate NextJob(projects: map<nat, Project>, choice: Option<nat>) {
    match choice
    case Some(id) => Oldest(projects, id) && forall other :: Oldest(projects, other) ==> other == id
    case None => forall id :: Oldest(projects, id) ==> exists other :: Oldest(projects, other) && other != id
  }

  // ---------------------------------------------------------------- the loop

  function DoPoll(d: Store, l: Loop): Loop {
    match l.job
    case None => l.(pc := Picking)
    case Some(j) =>
      if j.id in d.projects && d.projects[j.id].version == j.version && IsCompiling(d.projects[j.id].status) then l
      else l.(pc := Picking, job := None, live := l.live - {j.process})
  }

  /** The status that the end of a stage calls for. */
  function StatusAfter(stage: Stage, outcome: Outcome): Status {
    match outcome
    case Succeeded => if stage == Sql then CompilingRust else Success
    case IoError => SystemError
    case Failed(messages) => if stage == Rust then RustError else if messages then SqlError else SystemError
  }

  /** After the status write: the loop ends on an error, starts `cargo` after the SQL
      compiler, or is done with the job. */
  function DoExit(d: Store, l: Loop, j: Job, outcome: Outcome): Loop {
    var l := l.(live := l.live - {j.process});
    if j.id !in d.projects then l.(pc := Ended, job := None)
    else if outcome == Succeeded && j.stage == Sql then
      l.(job := Some(j.(stage := Rust, process := l.nextProcess)),
         live := l.live + {l.nextProcess}, nextProcess := l.nextProcess + 1)
    else l.(pc := Picking, job := None)
  }

  /** What the finished process left on disk. */
  function Produced(disk: Disk, j: Job, outcome: Outcome): Disk {
    if outcome != Succeeded then disk
    else if j.stage == Sql then disk.(generated := disk.generated[j.id := j.code])
    else if j.id in disk.generated then disk.(built := disk.built[j.id := disk.generated[j.id]])
    else disk
  }

  function Recorded(past: Past, j: Job, outcome: Outcome): Past {
    Past(past.ends + [End(j.stage, j.id, j.version, j.code, outcome)],
         past.writes + [Write(j.id, j.version, StatusAfter(j.stage, outcome))])
  }

  function DoPick(d: Store, l: Loop, choice: Option<nat>): Loop {
    if choice.Some? && choice.value in d.projects then
      var p := d.projects[choice.value];
      l.(pc := Picked(choice.value, p.version, p.code))
    else l.(pc := Waiting)
  }

  function DoSpawn(l: Loop, id: nat, version: nat, code: Code): Loop {
    l.(pc := Marking, job := Some(Job(Sql, id, version, code, l.nextProcess)),
       live := l.live + {l.nextProcess}, nextProcess := l.nextProcess + 1)
  }

  /** The SQL compiler's output file is emptied before it runs. */
  function Truncated(disk: Disk, id: nat): Disk {
    disk.(generated := map k | k in disk.generated && k != id :: disk.generated[k])
  }

  // ---------------------------------------------------------------- the whole system

  ghost predicate Enabled(s: State, step: Step) {
    match step
    case Poll => s.loop.pc == Waiting
    case Exit(_) => s.loop.pc == Waiting && s.loop.job.Some?
    case PickNext(choice) => s.loop.pc == Picking && NextJob(s.store.projects, choice)
    case SpawnSql => s.loop.pc.Picked?
    case MarkSql => s.loop.pc == Marking && s.loop.job.Some?
    case _ => true
  }

  ghost function StoreAfter(s: State, step: Step): Store
    requires Enabled(s, step)
  {
    var d, l := s.store, s.loop;
    match step
    case NewProject(code) => CreateProject(d, code)
    case UpdateProject(id, newCode) => ChangeProject(d, id, newCode)
    case CompileProject(id, version) => RequestCompile(d, id, version)
    case CancelProject(id, version) => RequestCancel(d, id, version)
    case DeleteProject(id) => Delete(d, id)
    case Clock => d.(now := d.now + 1)
    case Exit(outcome) =>
      GuardedWrite(d, l.job.value.id, l.job.value.version, StatusAfter(l.job.value.stage, outcome))
    case MarkSql => GuardedWrite(d, l.job.value.id, l.job.value.version, CompilingSql)
    case _ => d
  }

  ghost function LoopAfter(s: State, step: Step): Loop
    requires Enabled(s, step)
  {
    var d, l := s.store, s.loop;
    match step
    case Poll => DoPoll(d, l)
    case Exit(outcome) => DoExit(d, l, l.job.value, outcome)
    case PickNext(choice) => DoPick(d, l, choice)
    case SpawnSql => DoSpawn(l, l.pc.id, l.pc.version, l.pc.code)
    case MarkSql => if l.job.value.id in d.projects then l.(pc := Waiting) else l.(pc := Ended, job := None)
    case Fail => l.(pc := Ended, job := None)
    case _ => l
  }

  ghost function DiskAfter(s: State, step: Step): Disk
    requires Enabled(s, step)
  {
    match step
    case Exit(outcome) => Produced(s.disk, s.loop.job.value, outcome)
    case SpawnSql => Truncated(s.disk, s.loop.pc.id)
    case _ => s.disk
  }

  ghost function PastAfter(s: State, step: Step): Past
    requires Enabled(s, step)
  {
    match step
    case Exit(outcome) => Recorded(s.past, s.loop.job.value, outcome)
    case MarkSql =>
      s.past.(writes := s.past.writes + [Write(s.loop.job.value.id, s.loop.job.value.version, CompilingSql)])
    case _ => s.past
  }

  ghost function Apply(s: State, step: Step): State
    requires Enabled(s, step)
  {
    State(StoreAfter(s, step), LoopAfter(s, step), DiskAfter(s, step), PastAfter(s, step))
  }

  /** The manager starts with every status reset and no history. */
  ghost predicate Init(s: State) {
    && s.loop.pc == Waiting && s.loop.job == None && s.loop.live == {} && s.past == Past([], [])
    && var d := s.store;
    && (forall id :: id in d.projects ==>
          id < d.nextId && d.projects[id].status == NoStatus && d.projects[id].since <= d.now)
    && (forall k :: k in d.codes ==> k.0 in d.projects && k.1 == d.projects[k.0].version)
    && (forall id :: id in d.projects ==>
          (id, d.projects[id].version) in d.codes && d.codes[(id, d.projects[id].version)] == d.projects[id].code)
  }

  ghost predicate StepAt(run: seq<State>, steps: seq<Step>, i: nat)
    requires i < |steps| && i + 1 < |run|
  {
    Enabled(run[i], steps[i]) && run[i + 1] == Apply(run[i], steps[i])
  }

  ghost predicate IsRun(run: seq<State>, steps: seq<Step>) {
    && |run| == |steps| + 1 && Init(run[0])
    && forall i :: 0 <= i < |steps| ==> StepAt(run, steps, i)
  }
}
