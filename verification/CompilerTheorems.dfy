/** What the compile loop promises over every run, and where it does not. */
module CompilerTheorems {
  import opened Basics
  import opened CompilerModel
  import opened CompilerInvariant

  /** A stored `Success` means that both stages passed on the code of the stored version, the
      Rust compiler at its last run, and that the executable was built from it. */
  lemma SuccessIsReal(run: seq<State>, steps: seq<Step>, i: nat, id: nat)
    requires IsRun(run, steps) && i < |run|
    requires id in run[i].store.projects && run[i].store.projects[id].status == Success
    ensures var s, p := run[i], run[i].store.projects[id];
            && End(Sql, id, p.version, p.code, Succeeded) in s.past.ends
            && End(Rust, id, p.version, p.code, Succeeded) in s.past.ends
            && id in s.disk.built && s.disk.built[id] == p.code
  {
    InvRun(run, steps, i);
    assert Earned(run[i].store.projects[id], run[i].disk, run[i].past, id);
    var k :| Judged(run[i].past.ends, k, run[i].store.projects[id], id);
    assert run[i].past.ends[k].stage == Rust && run[i].past.ends[k].outcome == Succeeded;
  }

  /** A stored verdict is that of the last stage that ended on the stored version and its code:
      `RustError` of a failed Rust compiler, `SqlError` of a SQL compiler that failed with
      readable messages, `SystemError` of one that failed without, or of a process lost. */
  lemma VerdictIsLast(run: seq<State>, steps: seq<Step>, i: nat, id: nat) returns (k: nat)
    requires IsRun(run, steps) && i < |run|
    requires id in run[i].store.projects && IsVerdict(run[i].store.projects[id].status)
    ensures var p, ends := run[i].store.projects[id], run[i].past.ends;
            && k < |ends| && ends[k].id == id && ends[k].version == p.version && ends[k].code == p.code
            && (p.status == CompilingRust <==> ends[k].stage == Sql && ends[k].outcome == Succeeded)
            && (p.status == Success <==> ends[k].stage == Rust && ends[k].outcome == Succeeded)
            && (p.status == SqlError <==> ends[k].stage == Sql && ends[k].outcome == Failed(true))
            && (p.status == RustError <==> ends[k].stage == Rust && ends[k].outcome.Failed?)
            && forall m :: k < m < |ends| ==> ends[m].id != id || ends[m].version != p.version
  {
    InvRun(run, steps, i);
    k :| Judged(run[i].past.ends, k, run[i].store.projects[id], id);
  }

  /** The end of a stage is stored at once if the project still has the version of the job, and
      the SQL compiler's success hands the job over to the Rust compiler; nothing else changes. */
  lemma ExitExactly(run: seq<State>, steps: seq<Step>, i: nat)
    requires IsRun(run, steps) && i < |steps| && steps[i].Exit? && run[i].loop.job.Some?
    ensures var j, d, d', l := run[i].loop.job.value, run[i].store, run[i + 1].store, run[i + 1].loop;
            var here := j.id in d.projects;
            && d'.projects.Keys == d.projects.Keys
            && (forall id :: id in d.projects && id != j.id ==> d'.projects[id] == d.projects[id])
            && (here && d.projects[j.id].version != j.version ==> d' == d)
            && (here && d.projects[j.id].version == j.version ==>
                 d'.projects[j.id].status == match (j.stage, steps[i].outcome)
                   case (Sql, Succeeded) => CompilingRust
                   case (Rust, Succeeded) => Success
                   case (Sql, Failed(true)) => SqlError
                   case (Rust, Failed(_)) => RustError
                   case _ => SystemError)
            && if here && j.stage == Sql && steps[i].outcome == Succeeded then
                 l.job == Some(Job(Rust, j.id, j.version, j.code, run[i].loop.nextProcess)) && l.pc == Waiting
               else l.job == None && l.pc != Waiting
  {
    assert StepAt(run, steps, i);
    InvRun(run, steps, i);
  }

  /** Until the loop ends, a project shows as compiling exactly while the loop waits for the
      job of its current version, and then it shows the stage of that job. */
  lemma CompilingExactly(run: seq<State>, steps: seq<Step>, i: nat, id: nat)
    requires IsRun(run, steps) && i < |run| && run[i].loop.pc != Ended && id in run[i].store.projects
    ensures var l, p := run[i].loop, run[i].store.projects[id];
            IsCompiling(p.status) <==>
            l.pc == Waiting && l.job.Some? && l.job.value.id == id && l.job.value.version == p.version
    ensures var l, p := run[i].loop, run[i].store.projects[id];
            IsCompiling(p.status) ==> l.job.Some? && p.status == CompilingStatus(l.job.value.stage)
  {
    InvRun(run, steps, i);
  }

  /** At most one compiler process runs, and until the loop ends it is the job's. */
  lemma OneProcess(run: seq<State>, steps: seq<Step>, i: nat)
    requires IsRun(run, steps) && i < |run|
    ensures forall p, q :: p in run[i].loop.live && q in run[i].loop.live ==> p == q
    ensures var l := run[i].loop; l.pc != Ended ==> l.live == if l.job.Some? then {l.job.value.process} else {}
  {
    InvRun(run, steps, i);
  }

  /** The wake-up cancels the job exactly when its project is gone or has a new version: the
      test of the status never decides. */
  lemma PollCancelsExactly(run: seq<State>, steps: seq<Step>, i: nat)
    requires IsRun(run, steps) && i < |run| && run[i].loop.pc == Waiting && run[i].loop.job.Some?
    ensures var d, l := run[i].store, run[i].loop;
            var j := l.job.value;
            DoPoll(d, l).job == None <==> j.id !in d.projects || d.projects[j.id].version != j.version
  {
    InvRun(run, steps, i);
  }

  /** A request to cancel changes nothing, whatever the status: no status is both pending
      and compiling. */
  lemma CancelDoesNothing(d: Store, id: nat, version: nat)
    ensures RequestCancel(d, id, version) == d
  {
  }

  /** No Rust program is left over: while the SQL compiler runs there is none, and when it ends
      there is one exactly if it succeeded. */
  lemma NoStaleProgram(run: seq<State>, steps: seq<Step>, i: nat)
    requires IsRun(run, steps) && i < |steps| && run[i].loop.job.Some? && run[i].loop.job.value.stage == Sql
    ensures var id := run[i].loop.job.value.id;
            && id !in run[i].disk.generated
            && (steps[i].Exit? ==> (id in run[i + 1].disk.generated <==> steps[i].outcome == Succeeded))
  {
    assert StepAt(run, steps, i);
    InvRun(run, steps, i);
  }

  /** A request to compile queues the project exactly if it is idle and the version is current;
      it never moves a project that is queued or compiling. */
  lemma RequestExactly(d: Store, id: nat, version: nat)
    ensures var d' := RequestCompile(d, id, version);
            && d'.projects.Keys == d.projects.Keys
            && (forall other :: other in d.projects && other != id ==> d'.projects[other] == d.projects[other])
            && (id in d.projects ==>
                  var p, p' := d.projects[id], d'.projects[id];
                  && (p' != p ==> p'.status == Pending && p'.since == d.now)
                  && (p'.status == Pending <==> p.status == Pending || (Idle(d, id) && p.version == version))
                  && (!Idle(d, id) ==> p' == p) && p'.version == p.version && p'.code == p.code)
  {
  }

  /** A new project gets an id that no project has or had, and waits for a request. */
  lemma NewProjectExactly(d: Store, code: Code)
    requires Versions(d)
    ensures var d' := CreateProject(d, code);
            && d.nextId !in d.projects && (forall k :: k in d.codes ==> k.0 != d.nextId)
            && d'.projects == d.projects[d.nextId := Project(1, code, NoStatus, d.now)] && d'.nextId > d.nextId
  {
  }

  /** An update makes a new version exactly if the code differs, and then withdraws the verdict on
      the old one and its place in the queue. */
  lemma UpdateExactly(d: Store, id: nat, newCode: Option<Code>)
    requires id in d.projects
    ensures var p, d' := d.projects[id], ChangeProject(d, id, newCode);
            && d'.projects.Keys == d.projects.Keys
            && (forall other :: other in d.projects && other != id ==> d'.projects[other] == d.projects[other])
            && d'.projects[id].code == (if newCode == None then p.code else newCode.value)
            && (d'.projects[id] == p <==> d'.projects[id].code == p.code)
            && (d'.projects[id] != p ==>
                  && d'.projects[id].version == p.version + 1 && d'.projects[id].status == NoStatus
                  && d'.projects[id].since == p.since)
  {
  }

  // ---------------------------------------------------------------- the words of status writes

  /** The writes, cut before every `CompilingSql`. */
  function Words(ws: seq<Write>): seq<seq<Write>> {
    if ws == [] then []
    else
      var words, w := Words(ws[..|ws| - 1]), ws[|ws| - 1];
      if words == [] || w.status == CompilingSql then words + [[w]]
      else words[..|words| - 1] + [words[|words| - 1] + [w]]
  }

  /** The writes of one job: `CompilingSql`, then an error or `CompilingRust`, then an error
      or `Success`; the job may be cut short anywhere. */
  ghost predicate IsWord(w: seq<Write>) {
    && 1 <= |w| <= 3 && w[0].status == CompilingSql
    && (forall i :: 0 <= i < |w| ==> w[i].id == w[0].id && w[i].version == w[0].version)
    && (|w| > 1 ==> w[1].status == CompilingRust || w[1].status == SqlError || w[1].status == SystemError)
    && (|w| > 2 ==> w[1].status == CompilingRust
                    && (w[2].status == Success || w[2].status == RustError || w[2].status == SystemError))
  }

  /** `words` are words that make up `ws`, and the last word ends where `ws` does. */
  ghost predicate Spell(words: seq<seq<Write>>, ws: seq<Write>) {
    && Flatten(words) == ws && (words == [] <==> ws == [])
    && (forall k :: 0 <= k < |words| ==> IsWord(words[k]))
    && (ws != [] ==> LastOf(words[|words| - 1], ws[|ws| - 1]))
  }

  ghost predicate LastOf(w: seq<Write>, last: Write) {
    w != [] && w[|w| - 1] == last
  }

  lemma NewWord(words: seq<seq<Write>>, ws: seq<Write>, w: Write)
    requires Spell(words, ws) && w.status == CompilingSql
    ensures Spell(words + [[w]], ws + [w])
  {
    FlattenAppend(words, [w]);
  }

  lemma LastWordGrows(words: seq<seq<Write>>, ws: seq<Write>, w: Write)
    requires Spell(words, ws) && ws != [] && Continues(ws[|ws| - 1], w) && w.status != CompilingSql
    ensures Spell(words[..|words| - 1] + [words[|words| - 1] + [w]], ws + [w])
  {
    var m := |words| - 1;
    var words' := words[..m] + [words[m] + [w]];
    FlattenLast(words);
    FlattenAppend(words[..m], words[m] + [w]);
    assert IsWord(words[m]);
    assert IsWord(words[m] + [w]);
  }

  lemma WordsSnoc(ws: seq<Write>, w: Write)
    requires Spell(Words(ws), ws) && Legal(ws + [w])
    ensures Spell(Words(ws + [w]), ws + [w])
  {
    assert (ws + [w])[..|ws|] == ws;
    if w.status == CompilingSql {
      NewWord(Words(ws), ws, w);
    } else {
      assert ws != [] by {
        assert (ws + [w])[0].status == CompilingSql;
      }
      assert Continues((ws + [w])[|ws| - 1], (ws + [w])[|ws|]);
      LastWordGrows(Words(ws), ws, w);
    }
  }

  lemma {:induction false} WordsOfLegal(ws: seq<Write>)
    requires Legal(ws)
    ensures Spell(Words(ws), ws)
  {
    if ws != [] {
      var n := |ws| - 1;
      WordsOfLegal(ws[..n]);
      assert ws[..n] + [ws[n]] == ws;
      WordsSnoc(ws[..n], ws[n]);
    }
  }

  /** The status writes of a run are the words of its jobs, one after the other, each about
      one project and one version. */
  lemma StatusWords(run: seq<State>, steps: seq<Step>, i: nat)
    requires IsRun(run, steps) && i < |run|
    ensures var ws := run[i].past.writes;
            Flatten(Words(ws)) == ws && forall k :: 0 <= k < |Words(ws)| ==> IsWord(Words(ws)[k])
  {
    InvRun(run, steps, i);
    WordsOfLegal(run[i].past.writes);
  }

  // ---------------------------------------------------------------- the end of the loop

  /** The loop ends exactly by a failure of its own or when it writes the status of a project
      that was deleted. */
  lemma EndsExactly(run: seq<State>, steps: seq<Step>, i: nat)
    requires IsRun(run, steps) && i < |steps| && run[i].loop.pc != Ended
    ensures run[i + 1].loop.pc == Ended <==>
            || steps[i] == Fail
            || ((steps[i].Exit? || steps[i].MarkSql?)
                && run[i].loop.job.Some? && run[i].loop.job.value.id !in run[i].store.projects)
  {
    assert StepAt(run, steps, i);
    InvRun(run, steps, i);
  }

  /** The loop never comes back: from then on it starts no process, writes no status and
      touches no file, whatever the users request. */
  lemma {:induction false} EndedForGood(run: seq<State>, steps: seq<Step>, i: nat, j: nat)
    requires IsRun(run, steps) && i <= j < |run| && run[i].loop.pc == Ended
    ensures run[j].loop == run[i].loop && run[j].disk == run[i].disk && run[j].past == run[i].past
  {
    if i < j {
      EndedForGood(run, steps, i, j - 1);
      assert StepAt(run, steps, j - 1);
      InvRun(run, steps, i);
    }
  }

  ghost predicate Reachable(s: State) {
    exists run, steps :: IsRun(run, steps) && run[|steps|] == s
  }

  lemma ReachableInit(s: State)
    requires Init(s)
    ensures Reachable(s)
  {
    var run, steps: seq<Step> := [s], [];
    assert IsRun(run, steps) && run[|steps|] == s;
  }

  lemma Go(s: State, step: Step) returns (s': State)
    requires Reachable(s) && Enabled(s, step)
    ensures Reachable(s') && s' == Apply(s, step)
  {
    s' := Apply(s, step);
    var run, steps :| IsRun(run, steps) && run[|steps|] == s;
    var run', steps' := run + [s'], steps + [step];
    forall i | 0 <= i < |steps'| ensures StepAt(run', steps', i) {
      if i < |steps| {
        assert StepAt(run, steps, i);
      }
    }
    assert IsRun(run', steps') && run'[|steps'|] == s';
  }

  /** Deleting the project of any running job and letting its process finish, with whatever
      outcome, ends the loop, unless the wake-up notices the deletion in between. */
  lemma DeletionEnds(s: State, outcome: Outcome) returns (s': State)
    requires Reachable(s) && s.loop.pc == Waiting && s.loop.job.Some?
    ensures s' == Apply(Apply(s, DeleteProject(s.loop.job.value.id)), Exit(outcome))
    ensures Reachable(s') && s'.loop.pc == Ended
  {
    var s1 := Go(s, DeleteProject(s.loop.job.value.id));
    s' := Go(s1, Exit(outcome));
  }

  /** A request for an idle project, with an empty queue and no job, leads to a job. */
  lemma JobStarts(s: State, id: nat) returns (s': State)
    requires Reachable(s) && s.loop.pc == Waiting && s.loop.job.None? && Idle(s.store, id) && QueueEmpty(s.store)
    ensures Reachable(s') && s'.loop.pc == Waiting && s'.loop.job.Some?
    ensures s'.loop.job == Some(Job(Sql, id, s.store.projects[id].version, s.store.projects[id].code,
                                    s.loop.nextProcess))
    ensures id in s'.store.projects && s'.store.projects == s.store.projects[id := s'.store.projects[id]]
    ensures s'.store.projects[id].version == s.store.projects[id].version
  {
    s' := Go(s, CompileProject(id, s.store.projects[id].version));
    assert Oldest(s'.store.projects, id) && forall other :: Oldest(s'.store.projects, other) ==> other == id;
    s' := Go(s', Poll);
    s' := PickedStarts(s', id);
  }

  lemma PickedStarts(s: State, id: nat) returns (s': State)
    requires Reachable(s) && s.loop.pc == Picking && NextJob(s.store.projects, Some(id))
    ensures Reachable(s') && s'.loop.pc == Waiting && s'.loop.job.Some?
    ensures id in s.store.projects
    ensures s'.loop.job == Some(Job(Sql, id, s.store.projects[id].version, s.store.projects[id].code,
                                    s.loop.nextProcess))
    ensures id in s'.store.projects && s'.store.projects == s.store.projects[id := s'.store.projects[id]]
    ensures s'.store.projects[id].version == s.store.projects[id].version
  {
    s' := Go(s, PickNext(Some(id)));
    s' := Go(s', SpawnSql);
    s' := Go(s', MarkSql);
  }

  /** Both compilers pass and nobody interferes: the project is compiled. */
  lemma CompileSucceeds(s: State, id: nat) returns (s': State)
    requires Reachable(s) && s.loop.pc == Waiting && s.loop.job.None? && Idle(s.store, id) && QueueEmpty(s.store)
    ensures Reachable(s') && id in s'.store.projects && s'.store.projects[id].status == Success
    ensures s'.store.projects[id].version == s.store.projects[id].version
    ensures id in s'.disk.built && s'.disk.built[id] == s.store.projects[id].code
  {
    s' := JobStarts(s, id);
    s' := Go(s', Exit(Succeeded));
    s' := Go(s', Exit(Succeeded));
  }

  /** So the loop ends for good in some run from every start with a project. */
  lemma EndHappens(s: State, id: nat, outcome: Outcome) returns (s': State)
    requires Init(s) && id in s.store.projects
    ensures Reachable(s') && s'.loop.pc == Ended && id !in s'.store.projects
  {
    ReachableInit(s);
    s' := JobStarts(s, id);
    s' := DeletionEnds(s', outcome);
  }

  // ---------------------------------------------------------------- the queue

  /** The project exists and is neither queued nor compiling. */
  ghost predicate Idle(d: Store, id: nat) {
    id in d.projects && d.projects[id].status != Pending && !IsCompiling(d.projects[id].status)
  }

  ghost predicate QueueEmpty(d: Store) {
    forall id :: id in d.projects ==> d.projects[id].status != Pending
  }

  /** The loop is about to mark this version of the project. */
  predicate Underway(l: Loop, id: nat, version: nat) {
    || (l.pc.Picked? && l.pc.id == id && l.pc.version == version)
    || (l.pc == Marking && l.job.Some? && l.job.value.id == id && l.job.value.version == version)
  }

  /** Two projects have waited longest, from the same second on. */
  ghost predicate Tied(d: Store, l: Loop, p: nat, q: nat) {
    && p != q && Oldest(d.projects, p) && Oldest(d.projects, q)
    && !Underway(l, p, d.projects[p].version) && !Underway(l, q, d.projects[q].version)
  }

  predicate Touches(step: Step, id: nat) {
    (step.UpdateProject? || step.DeleteProject?) && step.id == id
  }

  ghost predicate Waits(projects: map<nat, Project>, id: nat) {
    id in projects && projects[id].status == Pending
  }

  /** Among the projects `ids`, one has waited longest. */
  lemma {:induction false} LongestWait(projects: map<nat, Project>, ids: set<nat>) returns (first: nat)
    requires ids != {} && ids <= projects.Keys
    ensures first in ids && forall id :: id in ids ==> projects[first].since <= projects[id].since
    decreases |ids|
  {
    var head :| head in ids;
    var rest := ids - {head};
    assert forall id :: id in ids ==> id == head || id in rest;
    first := head;
    if rest != {} {
      var other := LongestWait(projects, rest);
      if projects[other].since < projects[head].since {
        first := other;
      }
    }
  }

  lemma OldestExists(projects: map<nat, Project>, id: nat) returns (first: nat)
    requires Waits(projects, id)
    ensures Oldest(projects, first)
  {
    var ids := set other | other in projects && projects[other].status == Pending;
    assert id in ids;
    first := LongestWait(projects, ids);
  }

  lemma NextJobOnce(projects: map<nat, Project>, c: Option<nat>, c': Option<nat>)
    requires NextJob(projects, c) && NextJob(projects, c')
    ensures c == c'
  {
  }

  /** `next_job` always has one answer, and it is nothing exactly when nobody waits or two
      have waited longest. */
  lemma NextJobExactly(projects: map<nat, Project>) returns (choice: Option<nat>)
    ensures NextJob(projects, choice) && forall c :: NextJob(projects, c) ==> c == choice
    ensures choice == None <==>
            (forall id :: !Waits(projects, id)) || exists p, q :: p != q && Oldest(projects, p) && Oldest(projects, q)
  {
    choice := None;
    if id :| Waits(projects, id) {
      var first := OldestExists(projects, id);
      if forall other :: Oldest(projects, other) ==> other == first {
        choice := Some(first);
      }
    } else {
      assert forall id :: Oldest(projects, id) ==> Waits(projects, id);
    }
    forall c | NextJob(projects, c) ensures c == choice {
      NextJobOnce(projects, c, choice);
    }
  }

  /** No step that leaves a waiting project alone changes it or gets the loop to mark it. */
  lemma StillPending(s: State, step: Step, p: nat)
    requires Enabled(s, step) && Versions(s.store) && JobStatus(s.store, s.loop)
    requires Waits(s.store.projects, p) && !Underway(s.loop, p, s.store.projects[p].version)
    requires !Touches(step, p) && (step.PickNext? ==> step.choice == None)
    ensures p in StoreAfter(s, step).projects && StoreAfter(s, step).projects[p] == s.store.projects[p]
    ensures !Underway(LoopAfter(s, step), p, s.store.projects[p].version)
  {
  }

  /** Whoever joins the queue joins at its end. */
  lemma StillOldest(s: State, step: Step, p: nat)
    requires Enabled(s, step) && Versions(s.store) && Oldest(s.store.projects, p)
    requires p in StoreAfter(s, step).projects && StoreAfter(s, step).projects[p] == s.store.projects[p]
    ensures Oldest(StoreAfter(s, step).projects, p)
  {
  }

  lemma TiedStep(s: State, step: Step, p: nat, q: nat)
    requires Versions(s.store) && JobStatus(s.store, s.loop) && Enabled(s, step) && Tied(s.store, s.loop, p, q)
    requires !Touches(step, p) && !Touches(step, q)
    ensures Tied(StoreAfter(s, step), LoopAfter(s, step), p, q)
    ensures step.PickNext? ==> step.choice == None
  {
    StillPending(s, step, p);
    StillPending(s, step, q);
    StillOldest(s, step, p);
    StillOldest(s, step, q);
  }

  /** Two projects queued in the same second, once they head the queue, block it for good:
      no project is picked until one of the two is changed or deleted. */
  lemma {:induction false} TieBlocksQueue(run: seq<State>, steps: seq<Step>, i: nat, j: nat, p: nat, q: nat)
    requires IsRun(run, steps) && i <= j < |run| && Tied(run[i].store, run[i].loop, p, q)
    requires forall k :: i <= k < j ==> !Touches(steps[k], p) && !Touches(steps[k], q)
    ensures Tied(run[j].store, run[j].loop, p, q)
    ensures forall k :: i <= k < j && steps[k].PickNext? ==> steps[k].choice == None
  {
    if i < j {
      TieBlocksQueue(run, steps, i, j - 1, p, q);
      InvRun(run, steps, j - 1);
      assert StepAt(run, steps, j - 1);
      TiedStep(run[j - 1], steps[j - 1], p, q);
    }
  }

  /** Ties are easy to reach: with an empty queue, requests for any two idle projects before
      the clock ticks. */
  lemma TieHappens(s: State, p: nat, q: nat) returns (s': State)
    requires Reachable(s) && s.loop.pc == Waiting && QueueEmpty(s.store)
    requires Idle(s.store, p) && Idle(s.store, q) && p != q
    ensures Reachable(s') && Tied(s'.store, s'.loop, p, q)
  {
    s' := Go(s, CompileProject(p, s.store.projects[p].version));
    s' := Go(s', CompileProject(q, s.store.projects[q].version));
  }

  /** In particular from every start with two projects. */
  lemma TieHappensAtOnce(s: State, p: nat, q: nat) returns (s': State)
    requires Init(s) && p in s.store.projects && q in s.store.projects && p != q
    ensures Reachable(s') && Tied(s'.store, s'.loop, p, q)
  {
    ReachableInit(s);
    s' := TieHappens(s, p, q);
  }
}
