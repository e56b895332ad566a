/**
 The dependency-wave scheduler (`_execute_plan`, engine.py).  Workers run as an oracle: `run` gives
 the outcome of a task from the results of its dependencies.  `signals` says what the deadline and
 the cancel event do around each wave.
 */
module Scheduling {
  import opened Wrappers

  datatype Task = Task(id: string, role: string, dependencies: seq<string>)

  /** How a gathered worker ended. */
  datatype Outcome = Returned(summary: string) | Raised(error: string) | Cancelled

  /** A worker's own result, or the failure reported for a task that never ran. */
  datatype Kind = FromWorker(outcome: Outcome) | DependencyCycle

  datatype TaskResult = TaskResult(taskId: string, role: string, kind: Kind)

  /** A worker that was started, with the dependency results it was given. */
  datatype Launch = Launch(task: Task, dependencyResults: seq<TaskResult>)

  /** What the deadline and the cancel event show around one wave. */
  datatype Signal = Signal(expiredBefore: bool, cancelled: bool, expiredDuring: bool)

  const UNDISTURBED := Signal(false, false, false)

  // ---------------------------------------------------------------- plans as graphs

  function Ids(plan: seq<Task>): set<string> {
    set t | t in plan :: t.id
  }

  ghost predicate DistinctIds(plan: seq<Task>) {
    forall i, k :: 0 <= i < k < |plan| ==> plan[i].id != plan[k].id
  }

  /** Task a of the plan waits for task b of the plan. */
  ghost predicate Waits(plan: seq<Task>, a: string, b: string) {
    b in Ids(plan) && exists t :: t in plan && t.id == a && b in t.dependencies
  }

  ghost predicate Walk(plan: seq<Task>, p: seq<string>) {
    forall i :: 0 <= i < |p| - 1 ==> Waits(plan, p[i], p[i + 1])
  }

  ghost predicate Repeats(p: seq<string>) {
    exists i, k :: 0 <= i < k < |p| && p[i] == p[k]
  }

  /** Following dependencies from a, one can come back to a task already met. */
  ghost predicate ReachesCycle(plan: seq<Task>, a: string) {
    exists p: seq<string> :: p != [] && p[0] == a && Walk(plan, p) && Repeats(p)
  }

  ghost predicate Acyclic(plan: seq<Task>) {
    forall a :: a in Ids(plan) ==> !ReachesCycle(plan, a)
  }

  /** x waits for a member of the set. */
  ghost predicate Stuck(plan: seq<Task>, blocked: set<string>, x: string) {
    exists y :: y in blocked && Waits(plan, x, y)
  }

  /** A walk of any length inside a set whose members all wait for a member. */
  lemma {:induction false} WalkInside(plan: seq<Task>, blocked: set<string>, a: string, n: nat) returns (p: seq<string>)
    requires a in blocked
    requires forall x {:trigger Stuck(plan, blocked, x)} :: x in blocked ==> Stuck(plan, blocked, x)
    ensures |p| == n + 1 && p[0] == a && Walk(plan, p) && forall x :: x in p ==> x in blocked
    decreases n
  {
    if n == 0 {
      p := [a];
    } else {
      assert Stuck(plan, blocked, a);
      var b :| b in blocked && Waits(plan, a, b);
      var rest := WalkInside(plan, blocked, b, n - 1);
      p := [a] + rest;
      forall i | 0 <= i < |p| - 1 ensures Waits(plan, p[i], p[i + 1]) {
        if i > 0 {
          assert Waits(plan, rest[i - 1], rest[i]);
        }
      }
    }
  }

  /** The pigeonhole principle. */
  lemma {:induction false} LongSequenceRepeats(p: seq<string>, s: set<string>)
    requires forall x :: x in p ==> x in s
    requires |p| > |s|
    ensures Repeats(p)
    decreases |p|
  {
    var x := p[0];
    assert x in p;
    if x in p[1..] {
      var k :| 0 <= k < |p[1..]| && p[1..][k] == x;
      assert p[k + 1] == p[0];
    } else {
      forall y | y in p[1..] ensures y in s - {x} {
        assert y in p;
      }
      LongSequenceRepeats(p[1..], s - {x});
      var i, k :| 0 <= i < k < |p[1..]| && p[1..][i] == p[1..][k];
      assert p[i + 1] == p[k + 1];
    }
  }

  lemma BlockedReachesCycle(plan: seq<Task>, blocked: set<string>, a: string)
    requires a in blocked
    requires forall x {:trigger Stuck(plan, blocked, x)} :: x in blocked ==> Stuck(plan, blocked, x)
    ensures ReachesCycle(plan, a)
  {
    var p := WalkInside(plan, blocked, a, |blocked|);
    LongSequenceRepeats(p, blocked);
  }

  /** Waves: every task waits only for tasks of earlier waves. */
  ghost predicate Ranked(plan: seq<Task>, wave: map<string, nat>) {
    forall a, b :: a in wave && Waits(plan, a, b) ==> b in wave && wave[b] < wave[a]
  }

  lemma {:induction false} WalkDescends(plan: seq<Task>, wave: map<string, nat>, p: seq<string>, k: nat)
    requires Ranked(plan, wave) && Walk(plan, p) && k < |p| && p[0] in wave
    ensures p[k] in wave
    ensures forall i :: 0 <= i < k ==> p[i] in wave && wave[p[k]] < wave[p[i]]
    decreases k
  {
    if k > 0 {
      WalkDescends(plan, wave, p, k - 1);
      assert Waits(plan, p[k - 1], p[k]);
    }
  }

  lemma RankedAvoidsCycle(plan: seq<Task>, wave: map<string, nat>, a: string)
    requires Ranked(plan, wave) && a in wave
    ensures !ReachesCycle(plan, a)
  {
    forall p: seq<string> | p != [] && p[0] == a && Walk(plan, p) ensures !Repeats(p) {
      forall i, k | 0 <= i < k < |p| ensures p[i] != p[k] {
        WalkDescends(plan, wave, p, k);
      }
    }
  }

  // ---------------------------------------------------------------- the pending dictionary

  function IndexOf(tasks: seq<Task>, id: string): (i: nat)
    ensures i <= |tasks|
    ensures i < |tasks| ==> tasks[i].id == id
    ensures forall k :: 0 <= k < i ==> tasks[k].id != id
  {
    if tasks == [] || tasks[0].id == id then 0 else 1 + IndexOf(tasks[1..], id)
  }

  /** `{task.task_id: task for task in plan.tasks}`: first position, last value. */
  function Pending(tasks: seq<Task>): (r: seq<Task>)
  {
    if tasks == [] then [] else
      var last := tasks[|tasks| - 1];
      var rest := Pending(tasks[..|tasks| - 1]);
      var i := IndexOf(rest, last.id);
      if i < |rest| then rest[i := last] else rest + [last]
  }

  lemma IdIn(tasks: seq<Task>, id: string)
    ensures id in Ids(tasks) <==> exists k :: 0 <= k < |tasks| && tasks[k].id == id
  {
  }

  lemma {:induction false} PendingIds(tasks: seq<Task>, id: string)
    ensures id in Ids(Pending(tasks)) <==> id in Ids(tasks)
  {
    if tasks != [] {
      var n := |tasks| - 1;
      var last, front := tasks[n], tasks[..n];
      PendingIds(front, id);
      PutKeepsIds(Pending(front), last, id);
      assert tasks == front + [last];
    }
  }

  lemma {:induction false} PendingDistinct(tasks: seq<Task>)
    ensures DistinctIds(Pending(tasks))
  {
    if tasks != [] {
      PendingDistinct(tasks[..|tasks| - 1]);
    }
  }

  lemma {:induction false} PendingOfDistinct(tasks: seq<Task>)
    requires DistinctIds(tasks)
    ensures Pending(tasks) == tasks
  {
    if tasks != [] {
      var n := |tasks| - 1;
      PendingOfDistinct(tasks[..n]);
      assert tasks == tasks[..n] + [tasks[n]];
    }
  }

  /** The dictionary has every submitted id once, and is the submitted plan when its ids are distinct. */
  lemma PendingIsDictionary(tasks: seq<Task>)
    ensures DistinctIds(Pending(tasks))
    ensures Ids(Pending(tasks)) == Ids(tasks)
    ensures DistinctIds(tasks) ==> Pending(tasks) == tasks
  {
    PendingDistinct(tasks);
    forall id ensures id in Ids(Pending(tasks)) <==> id in Ids(tasks) {
      PendingIds(tasks, id);
    }
    if DistinctIds(tasks) {
      PendingOfDistinct(tasks);
    }
  }

  lemma PutKeepsIds(rest: seq<Task>, last: Task, id: string)
    ensures var i := IndexOf(rest, last.id);
            id in Ids(if i < |rest| then rest[i := last] else rest + [last]) <==> id == last.id || id in Ids(rest)
  {
    var i := IndexOf(rest, last.id);
    var r := if i < |rest| then rest[i := last] else rest + [last];
    IdIn(rest, id);
    IdIn(r, id);
    assert r[i].id == last.id;
    if k :| 0 <= k < |rest| && rest[k].id == id {
      assert r[k].id == id;
    }
    if k :| 0 <= k < |r| && r[k].id == id && k != i {
      assert rest[k].id == id;
    }
  }

  // ---------------------------------------------------------------- one wave

  predicate IsReady(t: Task, pending: seq<Task>, completed: map<string, TaskResult>) {
    forall dep :: dep in t.dependencies ==> dep in completed || dep !in Ids(pending)
  }

  /** `[completed[dep] for dep in task.dependencies if dep in completed]` */
  function DependencyResults(dependencies: seq<string>, completed: map<string, TaskResult>): seq<TaskResult> {
    if dependencies == [] then [] else
      var last := |dependencies| - 1;
      DependencyResults(dependencies[..last], completed) +
      (if dependencies[last] in completed then [completed[dependencies[last]]] else [])
  }

  function Launched(t: Task, completed: map<string, TaskResult>): Launch {
    Launch(t, DependencyResults(t.dependencies, completed))
  }

  function ResultOf(run: (Task, seq<TaskResult>) -> Outcome, launch: Launch): TaskResult {
    TaskResult(launch.task.id, launch.task.role, FromWorker(run(launch.task, launch.dependencyResults)))
  }

  function CycleResult(t: Task): TaskResult {
    TaskResult(t.id, t.role, DependencyCycle)
  }

  /** The results of a task's dependencies do not change once all of them that are planned have completed. */
  lemma {:induction false} DependencyResultsStable(dependencies: seq<string>, a: map<string, TaskResult>,
                                                   b: map<string, TaskResult>)
    requires forall dep :: dep in dependencies ==> (dep in a <==> dep in b) && (dep in a ==> a[dep] == b[dep])
    ensures DependencyResults(dependencies, a) == DependencyResults(dependencies, b)
  {
    if dependencies != [] {
      var last := |dependencies| - 1;
      assert dependencies[last] in dependencies;
      forall dep | dep in dependencies[..last] ensures dep in dependencies {
      }
      DependencyResultsStable(dependencies[..last], a, b);
    }
  }

  // ---------------------------------------------------------------- what the loop keeps

  /** Every planned task is either pending or completed. */
  ghost predicate Partition(plan: seq<Task>, pending: seq<Task>, completed: map<string, TaskResult>) {
    && DistinctIds(plan) && DistinctIds(pending)
    && (forall t :: t in pending ==> t in plan)
    && (forall t :: t in plan ==> (t in pending <==> t.id !in completed))
    && (forall id :: id in completed ==> id in Ids(plan))
  }

  ghost predicate UniqueResults(results: seq<TaskResult>) {
    forall i, k :: 0 <= i < k < |results| ==> results[i].taskId != results[k].taskId
  }

  /** The dictionary that recording a list of results builds. */
  function Recorded(results: seq<TaskResult>): map<string, TaskResult> {
    if results == [] then map[] else
      var last := results[|results| - 1];
      Recorded(results[..|results| - 1])[last.taskId := last]
  }

  lemma RecordedStep(results: seq<TaskResult>, r: TaskResult)
    ensures Recorded(results + [r]) == Recorded(results)[r.taskId := r]
  {
  }

  /** The results list and the completed dictionary hold the same results, one per task. */
  ghost predicate SameResults(results: seq<TaskResult>, completed: map<string, TaskResult>) {
    && UniqueResults(results)
    && (forall i :: 0 <= i < |results| ==> results[i].taskId in completed && completed[results[i].taskId] == results[i])
    && (forall id :: id in completed ==> completed[id] in results && completed[id].taskId == id)
  }

  /** The result reported for a worker: what it made of what it was handed, under its task's id and role. */
  ghost predicate Answers(r: TaskResult, launch: Launch, run: (Task, seq<TaskResult>) -> Outcome) {
    r == TaskResult(launch.task.id, launch.task.role, FromWorker(run(launch.task, launch.dependencyResults)))
  }

  /** Workers were launched in the order of their results, each after every planned dependency had its result. */
  ghost predicate LaunchedAfterDependencies(plan: seq<Task>, launches: seq<Launch>, results: seq<TaskResult>,
                                            run: (Task, seq<TaskResult>) -> Outcome)
  {
    && |launches| <= |results|
    && forall i :: 0 <= i < |launches| ==>
         && launches[i].task in plan && Answers(results[i], launches[i], run)
         && forall dep :: dep in launches[i].task.dependencies && dep in Ids(plan) ==>
              exists k :: 0 <= k < i && results[k].taskId == dep
  }

  /** A worker was handed exactly the results of its planned dependencies, in the order it lists them. */
  ghost predicate Handed(plan: seq<Task>, launch: Launch, completed: map<string, TaskResult>) {
    && launch.dependencyResults == DependencyResults(launch.task.dependencies, completed)
    && Cleared(plan, launch.task, completed)
  }

  ghost predicate AllHanded(plan: seq<Task>, launches: seq<Launch>, completed: map<string, TaskResult>) {
    forall i :: 0 <= i < |launches| ==> Handed(plan, launches[i], completed)
  }

  /** The entries of a dependency list that name tasks of the plan are at these positions. */
  ghost predicate PlannedAt(plan: seq<Task>, dependencies: seq<string>, at: seq<nat>) {
    && (forall k :: 0 <= k < |at| ==> at[k] < |dependencies| && dependencies[at[k]] in Ids(plan))
    && (forall i, k :: 0 <= i < k < |at| ==> at[i] < at[k])
    && (forall i :: 0 <= i < |dependencies| && dependencies[i] in Ids(plan) ==> i in at)
  }

  /** One after the other, the reported results of the planned entries, none missing and none added. */
  ghost predicate ResultsAt(dependencies: seq<string>, at: seq<nat>, given: seq<TaskResult>, results: seq<TaskResult>) {
    && |given| == |at|
    && forall k :: 0 <= k < |at| ==>
         at[k] < |dependencies| && given[k] in results && given[k].taskId == dependencies[at[k]]
  }

  /** A worker was handed exactly the reported results of its planned dependencies, in the order it lists them. */
  ghost predicate Given(plan: seq<Task>, launch: Launch, results: seq<TaskResult>) {
    exists at: seq<nat> ::
      && PlannedAt(plan, launch.task.dependencies, at)
      && ResultsAt(launch.task.dependencies, at, launch.dependencyResults, results)
  }

  ghost predicate AllGiven(plan: seq<Task>, launches: seq<Launch>, results: seq<TaskResult>) {
    forall i :: 0 <= i < |launches| ==> Given(plan, launches[i], results)
  }

  lemma PlannedNext(plan: seq<Task>, front: seq<string>, dep: string, at: seq<nat>)
    requires PlannedAt(plan, front, at)
    ensures PlannedAt(plan, front + [dep], if dep in Ids(plan) then at + [|front|] else at)
  {
    hide Ids;
    var dependencies := front + [dep];
    var next := if dep in Ids(plan) then at + [|front|] else at;
    forall i | 0 <= i < |dependencies| && dependencies[i] in Ids(plan) ensures i in next {
      if i < |front| { assert front[i] in Ids(plan); } else { assert next[|at|] == i; }
    }
  }

  lemma ResultsNext(front: seq<string>, dep: string, at: seq<nat>, given: seq<TaskResult>, results: seq<TaskResult>)
    requires ResultsAt(front, at, given, results)
    ensures ResultsAt(front + [dep], at, given, results)
    ensures forall r :: r in results && r.taskId == dep ==>
              ResultsAt(front + [dep], at + [|front|], given + [r], results)
  {
  }

  lemma DependencyResultsNext(front: seq<string>, dep: string, completed: map<string, TaskResult>)
    ensures DependencyResults(front + [dep], completed) ==
            if dep in completed then DependencyResults(front, completed) + [completed[dep]]
            else DependencyResults(front, completed)
  {
    assert (front + [dep])[..|front|] == front;
  }

  lemma GivenNone(plan: seq<Task>, completed: map<string, TaskResult>, results: seq<TaskResult>)
    ensures PlannedAt(plan, [], []) && ResultsAt([], [], DependencyResults([], completed), results)
  {
  }

  lemma {:induction false} GivenOver(plan: seq<Task>, dependencies: seq<string>, completed: map<string, TaskResult>,
                                     results: seq<TaskResult>) returns (at: seq<nat>)
    requires SameResults(results, completed) && forall id :: id in completed ==> id in Ids(plan)
    requires forall dep :: dep in dependencies && dep in Ids(plan) ==> dep in completed
    ensures PlannedAt(plan, dependencies, at)
    ensures ResultsAt(dependencies, at, DependencyResults(dependencies, completed), results)
  {
    hide Ids, DependencyResults, PlannedAt, ResultsAt, SameResults;
    if dependencies == [] {
      at := [];
      GivenNone(plan, completed, results);
    } else {
      var last := |dependencies| - 1;
      var front, dep := dependencies[..last], dependencies[last];
      assert dependencies == front + [dep] && dep in dependencies;
      at := GivenOver(plan, front, completed, results);
      DependencyResultsNext(front, dep, completed);
      PlannedNext(plan, front, dep, at);
      ResultsNext(front, dep, at, DependencyResults(front, completed), results);
      if dep in completed {
        RecordedResult(results, completed, dep);
        at := at + [last];
      }
    }
  }

  lemma RecordedResult(results: seq<TaskResult>, completed: map<string, TaskResult>, id: string)
    requires SameResults(results, completed) && id in completed
    ensures completed[id] in results && completed[id].taskId == id
  {
  }

  lemma HandedGiven(plan: seq<Task>, launches: seq<Launch>, completed: map<string, TaskResult>,
                    results: seq<TaskResult>)
    requires AllHanded(plan, launches, completed) && SameResults(results, completed)
    requires forall id :: id in completed ==> id in Ids(plan)
    ensures AllGiven(plan, launches, results)
  {
    forall i | 0 <= i < |launches| ensures Given(plan, launches[i], results) {
      assert Handed(plan, launches[i], completed);
      var at := GivenOver(plan, launches[i].task.dependencies, completed, results);
    }
  }

  /** Later results do not change what a worker should have been handed. */
  lemma HandedKept(plan: seq<Task>, launch: Launch, completed: map<string, TaskResult>, r: TaskResult)
    requires Handed(plan, launch, completed) && r.taskId in Ids(plan) && r.taskId !in completed
    ensures Handed(plan, launch, completed[r.taskId := r])
  {
    DependencyResultsStable(launch.task.dependencies, completed, completed[r.taskId := r]);
  }

  lemma AllHandedKept(plan: seq<Task>, launches: seq<Launch>, completed: map<string, TaskResult>, r: TaskResult)
    requires AllHanded(plan, launches, completed) && r.taskId in Ids(plan) && r.taskId !in completed
    ensures AllHanded(plan, launches, completed[r.taskId := r])
  {
    forall i | 0 <= i < |launches| ensures Handed(plan, launches[i], completed[r.taskId := r]) {
      HandedKept(plan, launches[i], completed, r);
    }
  }

  /** Only tasks of the plan have results, so a worker cleared in base sees there what it would see later. */
  lemma HandedNow(plan: seq<Task>, t: Task, base: map<string, TaskResult>, completed: map<string, TaskResult>,
                  r: TaskResult)
    requires Cleared(plan, t, base) && r.taskId in Ids(plan) && r.taskId !in completed
    requires forall id :: id in base ==> id in completed && completed[id] == base[id]
    requires forall id :: id in completed ==> id in Ids(plan)
    ensures Handed(plan, Launched(t, base), completed[r.taskId := r])
  {
    DependencyResultsStable(t.dependencies, base, completed[r.taskId := r]);
  }

  lemma HandedStep(plan: seq<Task>, launches: seq<Launch>, t: Task, base: map<string, TaskResult>,
                   completed: map<string, TaskResult>, r: TaskResult)
    requires AllHanded(plan, launches, completed)
    requires Cleared(plan, t, base) && r.taskId in Ids(plan) && r.taskId !in completed
    requires forall id :: id in base ==> id in completed && completed[id] == base[id]
    requires forall id :: id in completed ==> id in Ids(plan)
    ensures AllHanded(plan, launches + [Launched(t, base)], completed[r.taskId := r])
  {
    AllHandedKept(plan, launches, completed, r);
    HandedNow(plan, t, base, completed, r);
  }

  /** Every result has its launch, and what the launches promise. */
  ghost predicate LaunchesAt(plan: seq<Task>, launches: seq<Launch>, results: seq<TaskResult>,
                             completed: map<string, TaskResult>, run: (Task, seq<TaskResult>) -> Outcome)
  {
    && |launches| == |results| && LaunchedAfterDependencies(plan, launches, results, run)
    && AllHanded(plan, launches, completed)
  }

  /** The wave each completed task ran in, all before wave n. */
  ghost predicate WavesAt(plan: seq<Task>, completed: map<string, TaskResult>, wave: map<string, nat>, n: nat) {
    wave.Keys == completed.Keys && (forall a :: a in wave ==> wave[a] < n) && Ranked(plan, wave)
  }

  ghost predicate Invariant(plan: seq<Task>, pending: seq<Task>, completed: map<string, TaskResult>,
                            results: seq<TaskResult>, launches: seq<Launch>, wave: map<string, nat>, n: nat,
                            run: (Task, seq<TaskResult>) -> Outcome)
  {
    && Partition(plan, pending, completed) && SameResults(results, completed)
    && LaunchesAt(plan, launches, results, completed, run) && WavesAt(plan, completed, wave, n)
  }

  /** `pending.pop(id)` */
  function Without(tasks: seq<Task>, id: string): seq<Task> {
    if tasks == [] then []
    else if tasks[0].id == id then Without(tasks[1..], id)
    else [tasks[0]] + Without(tasks[1..], id)
  }

  lemma {:induction false} WithoutFacts(tasks: seq<Task>, id: string)
    ensures forall t :: t in Without(tasks, id) <==> t in tasks && t.id != id
    ensures |Without(tasks, id)| <= |tasks|
    ensures (exists t :: t in tasks && t.id == id) ==> |Without(tasks, id)| < |tasks|
    ensures DistinctIds(tasks) ==> DistinctIds(Without(tasks, id))
  {
    if tasks != [] {
      WithoutFacts(tasks[1..], id);
      assert forall t :: t in tasks <==> t == tasks[0] || t in tasks[1..];
      assert DistinctIds(tasks) ==> forall t :: t in tasks[1..] ==> t.id != tasks[0].id;
    }
  }

  lemma SameTask(plan: seq<Task>, a: Task, b: Task)
    requires DistinctIds(plan) && a in plan && b in plan && a.id == b.id
    ensures a == b
  {
  }

  lemma PartitionStep(plan: seq<Task>, pending: seq<Task>, completed: map<string, TaskResult>, t: Task, r: TaskResult)
    requires Partition(plan, pending, completed) && t in pending
    ensures Partition(plan, Without(pending, t.id), completed[t.id := r])
  {
    WithoutFacts(pending, t.id);
    forall u | u in plan ensures u in Without(pending, t.id) <==> u.id !in completed[t.id := r] {
      if u.id == t.id { SameTask(plan, u, t); }
    }
  }

  lemma ResultsStep(results: seq<TaskResult>, completed: map<string, TaskResult>, r: TaskResult)
    requires SameResults(results, completed) && r.taskId !in completed
    ensures SameResults(results + [r], completed[r.taskId := r])
  {
  }

  /** All planned dependencies of t are in base. */
  ghost predicate Cleared(plan: seq<Task>, t: Task, base: map<string, TaskResult>) {
    forall dep :: dep in t.dependencies && dep in Ids(plan) ==> dep in base
  }

  lemma LaunchStep(plan: seq<Task>, launches: seq<Launch>, results: seq<TaskResult>,
                   run: (Task, seq<TaskResult>) -> Outcome, t: Task, base: map<string, TaskResult>,
                   completed: map<string, TaskResult>)
    requires LaunchedAfterDependencies(plan, launches, results, run) && |launches| == |results|
    requires SameResults(results, completed) && t in plan && Cleared(plan, t, base)
    requires forall id :: id in base ==> id in completed && completed[id] == base[id]
    ensures LaunchedAfterDependencies(plan, launches + [Launched(t, base)],
                                      results + [ResultOf(run, Launched(t, base))], run)
  {
    var launch := Launched(t, base);
    var launches', results' := launches + [launch], results + [ResultOf(run, launch)];
    forall i, dep | 0 <= i < |launches'| && dep in launches'[i].task.dependencies && dep in Ids(plan)
      ensures exists k :: 0 <= k < i && results'[k].taskId == dep
    {
      if i < |launches| {
        var k :| 0 <= k < i && results[k].taskId == dep;
        assert results'[k] == results[k];
      } else {
        var k :| 0 <= k < |results| && results[k] == completed[dep];
        assert results'[k].taskId == dep;
      }
    }
  }

  lemma RankStep(plan: seq<Task>, wave: map<string, nat>, n: nat, t: Task, base: map<string, TaskResult>)
    requires DistinctIds(plan) && Ranked(plan, wave) && t in plan && t.id !in wave && Cleared(plan, t, base)
    requires forall id :: id in base ==> id in wave && wave[id] < n
    ensures Ranked(plan, wave[t.id := n])
  {
  }

  lemma NotReadyStuck(pending: seq<Task>, plan: seq<Task>, completed: map<string, TaskResult>, t: Task)
    requires (forall u :: u in pending ==> u in plan) && t in pending && !IsReady(t, pending, completed)
    ensures Stuck(plan, Ids(pending), t.id)
  {
  }

  /** When nothing is ready, exactly the pending tasks reach a cycle. */
  lemma StuckReachCycle(plan: seq<Task>, pending: seq<Task>, completed: map<string, TaskResult>, wave: map<string, nat>,
                        id: string)
    requires Partition(plan, pending, completed) && wave.Keys == completed.Keys && Ranked(plan, wave)
    requires forall t :: t in pending ==> !IsReady(t, pending, completed)
    requires id in Ids(plan)
    ensures ReachesCycle(plan, id) <==> id in Ids(pending)
  {
    var blocked := Ids(pending);
    if id in blocked {
      forall x {:trigger Stuck(plan, blocked, x)} | x in blocked ensures Stuck(plan, blocked, x) {
        var t :| t in pending && t.id == x;
        NotReadyStuck(pending, plan, completed, t);
      }
      BlockedReachesCycle(plan, blocked, id);
    } else {
      var t :| t in plan && t.id == id;
      RankedAvoidsCycle(plan, wave, id);
    }
  }

  // ---------------------------------------------------------------- the scheduler

  datatype Run = Results(results: seq<TaskResult>) | TimedOut

  method CollectReady(pending: seq<Task>, completed: map<string, TaskResult>) returns (ready: seq<Task>)
    requires DistinctIds(pending)
    ensures forall t :: t in ready <==> t in pending && IsReady(t, pending, completed)
    ensures DistinctIds(ready)
  {
    ready := [];
    for i := 0 to |pending|
      invariant forall t :: t in ready <==> t in pending[..i] && IsReady(t, pending, completed)
      invariant DistinctIds(ready)
      invariant forall t :: t in ready ==> forall k :: i <= k < |pending| ==> pending[k].id != t.id
    {
      assert pending[..i + 1] == pending[..i] + [pending[i]];
      if IsReady(pending[i], pending, completed) {
        ready := ready + [pending[i]];
      }
    }
    assert pending[..|pending|] == pending;
  }

  /** Start one wave: every ready task leaves pending and gets the results of its dependencies. */
  method StartWave(ready: seq<Task>, pending: seq<Task>, completed: map<string, TaskResult>)
    returns (rest: seq<Task>, wave: seq<Launch>)
    requires DistinctIds(pending)
    ensures |wave| == |ready| && forall i :: 0 <= i < |ready| ==> wave[i] == Launched(ready[i], completed)
    ensures rest == AfterRemoving(pending, ready)
  {
    hide DependencyResults, Without, AfterRemoving;
    rest, wave := pending, [];
    RemovingNone(pending);
    for i := 0 to |ready|
      invariant |wave| == i && forall k :: 0 <= k < i ==> wave[k] == Launched(ready[k], completed)
      invariant rest == AfterRemoving(pending, ready[..i])
    {
      RemoveNext(pending, ready, i);
      rest := Without(rest, ready[i].id);
      wave := wave + [Launched(ready[i], completed)];
    }
    assert ready[..|ready|] == ready;
  }

  lemma RemovingNone(pending: seq<Task>)
    ensures AfterRemoving(pending, []) == pending
  {
  }

  function AfterRemoving(pending: seq<Task>, ready: seq<Task>): seq<Task> {
    if ready == [] then pending else
      var last := |ready| - 1;
      Without(AfterRemoving(pending, ready[..last]), ready[last].id)
  }

  lemma {:induction false} RemovingShrinks(pending: seq<Task>, ready: seq<Task>)
    requires forall t :: t in ready ==> t in pending
    ensures |AfterRemoving(pending, ready)| <= |pending|
    ensures ready != [] ==> |AfterRemoving(pending, ready)| < |pending|
    ensures forall t :: t in AfterRemoving(pending, ready) <==> t in pending && forall u :: u in ready ==> u.id != t.id
  {
    if ready != [] {
      var last := |ready| - 1;
      assert ready == ready[..last] + [ready[last]];
      RemovingShrinks(pending, ready[..last]);
      WithoutFacts(AfterRemoving(pending, ready[..last]), ready[last].id);
      if last == 0 {
        assert ready[0] in pending && ready[0].id == ready[last].id;
      }
    }
  }

  lemma LaunchesAtStep(plan: seq<Task>, left: seq<Task>, completed: map<string, TaskResult>, results: seq<TaskResult>,
                       launches: seq<Launch>, run: (Task, seq<TaskResult>) -> Outcome, t: Task,
                       base: map<string, TaskResult>)
    requires Partition(plan, left, completed) && SameResults(results, completed)
    requires LaunchesAt(plan, launches, results, completed, run)
    requires t in left && Cleared(plan, t, base)
    requires forall id :: id in base ==> id in completed && completed[id] == base[id]
    ensures var launch := Launched(t, base); var r := ResultOf(run, launch);
            LaunchesAt(plan, launches + [launch], results + [r], completed[t.id := r], run)
  {
    PendingNotCompleted(plan, left, completed, t);
    LaunchStep(plan, launches, results, run, t, base, completed);
    HandedStep(plan, launches, t, base, completed, ResultOf(run, Launched(t, base)));
  }

  lemma WavesAtStep(plan: seq<Task>, left: seq<Task>, completed: map<string, TaskResult>, rank: map<string, nat>,
                    n: nat, t: Task, base: map<string, TaskResult>, r: TaskResult)
    requires Partition(plan, left, completed) && WavesAt(plan, completed, rank, n + 1)
    requires t in left && Cleared(plan, t, base)
    requires forall id :: id in base ==> id in rank && rank[id] < n
    ensures WavesAt(plan, completed[t.id := r], rank[t.id := n], n + 1)
  {
    PendingNotCompleted(plan, left, completed, t);
    RankStep(plan, rank, n, t, base);
  }

  /** Recording one launched task of wave n keeps the invariant. */
  lemma InvariantStep(plan: seq<Task>, left: seq<Task>, completed: map<string, TaskResult>, results: seq<TaskResult>,
                      launches: seq<Launch>, rank: map<string, nat>, n: nat, run: (Task, seq<TaskResult>) -> Outcome,
                      t: Task, base: map<string, TaskResult>)
    requires Invariant(plan, left, completed, results, launches, rank, n + 1, run)
    requires t in left && Cleared(plan, t, base)
    requires forall id :: id in base ==> id in completed && completed[id] == base[id]
    requires forall id :: id in base ==> id in rank && rank[id] < n
    ensures var launch := Launched(t, base); var r := ResultOf(run, launch);
            Invariant(plan, Without(left, t.id), completed[t.id := r], results + [r], launches + [launch],
                      rank[t.id := n], n + 1, run)
  {
    var r := ResultOf(run, Launched(t, base));
    LaunchesAtStep(plan, left, completed, results, launches, run, t, base);
    WavesAtStep(plan, left, completed, rank, n, t, base, r);
    PartitionStep(plan, left, completed, t, r);
    ResultsStep(results, completed, r);
  }

  /** What a wave over `ready` relies on after i of its results: `base` is what the wave started from. */
  ghost predicate WaveFacts(plan: seq<Task>, pending: seq<Task>, ready: seq<Task>, i: nat,
                            base: map<string, TaskResult>, completed: map<string, TaskResult>, rank: map<string, nat>,
                            n: nat)
  {
    && i <= |ready|
    && (forall id :: id in base ==> id in completed && completed[id] == base[id])
    && (forall id :: id in base ==> id in rank && rank[id] < n)
    && (forall k :: i <= k < |ready| ==> ready[k] in AfterRemoving(pending, ready[..i]))
    && (forall k :: 0 <= k < |ready| ==> Cleared(plan, ready[k], base))
  }

  lemma WaveStep(plan: seq<Task>, pending: seq<Task>, ready: seq<Task>, i: nat, base: map<string, TaskResult>,
                 completed: map<string, TaskResult>, rank: map<string, nat>, n: nat, r: TaskResult)
    requires WaveFacts(plan, pending, ready, i, base, completed, rank, n)
    requires i < |ready| && DistinctIds(ready) && ready[i].id !in completed
    ensures WaveFacts(plan, pending, ready, i + 1, base, completed[ready[i].id := r], rank[ready[i].id := n], n)
  {
    WithoutFacts(AfterRemoving(pending, ready[..i]), ready[i].id);
    RemoveNext(pending, ready, i);
  }

  ghost predicate Gathering(plan: seq<Task>, pending: seq<Task>, ready: seq<Task>, i: nat,
                            base: map<string, TaskResult>, completed: map<string, TaskResult>, results: seq<TaskResult>,
                            launches: seq<Launch>, rank: map<string, nat>, n: nat,
                            run: (Task, seq<TaskResult>) -> Outcome)
  {
    && WaveFacts(plan, pending, ready, i, base, completed, rank, n)
    && Invariant(plan, AfterRemoving(pending, ready[..i]), completed, results, launches, rank, n + 1, run)
  }

  lemma GatherStart(plan: seq<Task>, pending: seq<Task>, ready: seq<Task>, completed: map<string, TaskResult>,
                    results: seq<TaskResult>, launches: seq<Launch>, rank: map<string, nat>, n: nat,
                    run: (Task, seq<TaskResult>) -> Outcome)
    requires Invariant(plan, pending, completed, results, launches, rank, n, run)
    requires forall i :: 0 <= i < |ready| ==> ready[i] in pending && IsReady(ready[i], pending, completed)
    ensures Gathering(plan, pending, ready, 0, completed, completed, results, launches, rank, n, run)
  {
  }

  lemma GatherStep(plan: seq<Task>, pending: seq<Task>, ready: seq<Task>, i: nat, base: map<string, TaskResult>,
                   completed: map<string, TaskResult>, results: seq<TaskResult>, launches: seq<Launch>,
                   rank: map<string, nat>, n: nat, run: (Task, seq<TaskResult>) -> Outcome)
    requires Gathering(plan, pending, ready, i, base, completed, results, launches, rank, n, run)
    requires i < |ready| && DistinctIds(ready)
    ensures var launch := Launched(ready[i], base); var r := ResultOf(run, launch);
            Gathering(plan, pending, ready, i + 1, base, completed[ready[i].id := r], results + [r],
                      launches + [launch], rank[ready[i].id := n], n, run)
  {
    var left := AfterRemoving(pending, ready[..i]);
    RemoveNext(pending, ready, i);
    PendingNotCompleted(plan, left, completed, ready[i]);
    InvariantStep(plan, left, completed, results, launches, rank, n, run, ready[i], base);
    WaveStep(plan, pending, ready, i, base, completed, rank, n, ResultOf(run, Launched(ready[i], base)));
  }

  lemma RemoveNext(pending: seq<Task>, ready: seq<Task>, i: nat)
    requires i < |ready|
    ensures AfterRemoving(pending, ready[..i + 1]) == Without(AfterRemoving(pending, ready[..i]), ready[i].id)
  {
    assert ready[..i + 1][..i] == ready[..i];
  }

  lemma PendingNotCompleted(plan: seq<Task>, pending: seq<Task>, completed: map<string, TaskResult>, t: Task)
    requires Partition(plan, pending, completed) && t in pending
    ensures t.id !in completed && t in plan
  {
  }

  /** Gather one wave: the outcome of each worker is recorded in launch order. */
  method GatherWave(ghost plan: seq<Task>, ready: seq<Task>, wave: seq<Launch>, completed: map<string, TaskResult>,
                    results: seq<TaskResult>, launches: seq<Launch>, run: (Task, seq<TaskResult>) -> Outcome,
                    ghost pending: seq<Task>, ghost rank: map<string, nat>, ghost n: nat)
    returns (completed': map<string, TaskResult>, results': seq<TaskResult>, launches': seq<Launch>,
             ghost rank': map<string, nat>)
    requires Invariant(plan, pending, completed, results, launches, rank, n, run)
    requires DistinctIds(ready) && |wave| == |ready|
    requires forall i :: 0 <= i < |ready| ==> ready[i] in pending && IsReady(ready[i], pending, completed)
    requires forall i :: 0 <= i < |ready| ==> wave[i] == Launched(ready[i], completed)
    requires completed == Recorded(results)
    ensures Invariant(plan, AfterRemoving(pending, ready), completed', results', launches', rank', n + 1, run)
    ensures completed' == Recorded(results')
  {
    completed', results', launches', rank' := completed, results, launches, rank;
    GatherStart(plan, pending, ready, completed, results, launches, rank, n, run);
    for i := 0 to |ready|
      invariant Gathering(plan, pending, ready, i, completed, completed', results', launches', rank', n, run)
      invariant completed' == Recorded(results')
    {
      GatherStep(plan, pending, ready, i, completed, completed', results', launches', rank', n, run);
      var r := ResultOf(run, wave[i]);
      RecordedStep(results', r);
      completed' := completed'[ready[i].id := r];
      results' := results' + [r];
      launches' := launches' + [wave[i]];
      rank' := rank'[ready[i].id := n];
    }
    assert ready[..|ready|] == ready;
  }

  /** Every planned task has exactly one result. */
  ghost predicate OneResultEach(plan: seq<Task>, results: seq<TaskResult>) {
    && UniqueResults(results)
    && forall id :: id in Ids(plan) <==> exists i :: 0 <= i < |results| && results[i].taskId == id
  }

  lemma AllDone(plan: seq<Task>, completed: map<string, TaskResult>, results: seq<TaskResult>)
    requires SameResults(results, completed) && completed.Keys == Ids(plan)
    ensures OneResultEach(plan, results)
  {
  }

  function CycleResults(pending: seq<Task>): (r: seq<TaskResult>)
    ensures |r| == |pending| && forall i :: 0 <= i < |r| ==> r[i] == CycleResult(pending[i])
  {
    if pending == [] then [] else CycleResults(pending[..|pending| - 1]) + [CycleResult(pending[|pending| - 1])]
  }

  /** After i of the blocked tasks have been reported. */
  ghost predicate Reporting(plan: seq<Task>, pending: seq<Task>, i: nat, completed: map<string, TaskResult>,
                            results: seq<TaskResult>, launches: seq<Launch>, completed': map<string, TaskResult>,
                            results': seq<TaskResult>)
  {
    && i <= |pending| && SameResults(results', completed') && AllHanded(plan, launches, completed')
    && completed'.Keys == completed.Keys + Ids(pending[..i])
    && results' == results + CycleResults(pending[..i]) && completed' == Recorded(results')
  }

  lemma ReportStart(plan: seq<Task>, pending: seq<Task>, completed: map<string, TaskResult>, results: seq<TaskResult>,
                    launches: seq<Launch>)
    requires SameResults(results, completed) && AllHanded(plan, launches, completed) && completed == Recorded(results)
    ensures Reporting(plan, pending, 0, completed, results, launches, completed, results)
  {
  }

  lemma ReportStep(plan: seq<Task>, pending: seq<Task>, i: nat, completed: map<string, TaskResult>,
                   results: seq<TaskResult>, launches: seq<Launch>, completed': map<string, TaskResult>,
                   results': seq<TaskResult>, r: TaskResult)
    requires i < |pending| && r == CycleResult(pending[i])
    requires r.taskId !in completed' && r.taskId in Ids(plan) && Ids(pending[..i + 1]) == Ids(pending[..i]) + {r.taskId}
    requires Reporting(plan, pending, i, completed, results, launches, completed', results')
    ensures Reporting(plan, pending, i + 1, completed, results, launches, completed'[r.taskId := r], results' + [r])
  {
    ResultsStep(results', completed', r);
    RecordedStep(results', r);
    AllHandedKept(plan, launches, completed', r);
    CycleResultsNext(results, pending, i);
  }

  lemma CycleResultsNext(results: seq<TaskResult>, pending: seq<Task>, i: nat)
    requires i < |pending|
    ensures results + CycleResults(pending[..i + 1]) == results + CycleResults(pending[..i]) + [CycleResult(pending[i])]
  {
  }

  /** The blocked tasks get their cycle failure, in pending order. */
  method ReportCycle(ghost plan: seq<Task>, pending: seq<Task>, completed: map<string, TaskResult>,
                     results: seq<TaskResult>, ghost launches: seq<Launch>)
    returns (completed': map<string, TaskResult>, results': seq<TaskResult>)
    requires Partition(plan, pending, completed)
    requires SameResults(results, completed) && AllHanded(plan, launches, completed) && completed == Recorded(results)
    ensures Reporting(plan, pending, |pending|, completed, results, launches, completed', results')
  {
    completed', results' := completed, results;
    ReportStart(plan, pending, completed, results, launches);
    for i := 0 to |pending|
      invariant Reporting(plan, pending, i, completed, results, launches, completed', results')
    {
      var r := CycleResult(pending[i]);
      FreshInPending(plan, pending, completed, i);
      ReportStep(plan, pending, i, completed, results, launches, completed', results', r);
      completed' := completed'[pending[i].id := r];
      results' := results' + [r];
    }
  }

  lemma FreshInPending(plan: seq<Task>, pending: seq<Task>, completed: map<string, TaskResult>, i: nat)
    requires Partition(plan, pending, completed) && i < |pending|
    ensures pending[i].id !in completed && pending[i].id !in Ids(pending[..i]) && pending[i].id in Ids(plan)
    ensures CycleResults(pending[..i + 1]) == CycleResults(pending[..i]) + [CycleResult(pending[i])]
    ensures Ids(pending[..i + 1]) == Ids(pending[..i]) + {pending[i].id}
  {
  }

  /** The cycle failure of a planned task. */
  ghost predicate FailureOf(plan: seq<Task>, r: TaskResult) {
    exists t :: t in plan && r == TaskResult(t.id, t.role, DependencyCycle)
  }

  /** What a finished run promises: `plan` is the pending dictionary of the submitted tasks. */
  ghost predicate Scheduled(plan: seq<Task>, launches: seq<Launch>, results: seq<TaskResult>,
                            run: (Task, seq<TaskResult>) -> Outcome) {
    && OneResultEach(plan, results)
    && LaunchedAfterDependencies(plan, launches, results, run) && AllGiven(plan, launches, results)
    && (forall i :: 0 <= i < |results| ==> (results[i].kind.DependencyCycle? <==> i >= |launches|))
    && (forall i :: |launches| <= i < |results| ==> FailureOf(plan, results[i]))
    && (forall i :: 0 <= i < |results| ==>
          (results[i].kind.DependencyCycle? <==> ReachesCycle(plan, results[i].taskId)))
  }

  /** With nothing pending, everything planned has completed. */
  lemma FinishedIds(plan: seq<Task>, completed: map<string, TaskResult>)
    requires Partition(plan, [], completed)
    ensures completed.Keys == Ids(plan)
  {
    forall id | id in Ids(plan) ensures id in completed {
      var t :| t in plan && t.id == id;
    }
  }

  /** Each result is a worker's, and of a task that reaches no cycle. */
  lemma WorkersResults(plan: seq<Task>, completed: map<string, TaskResult>, results: seq<TaskResult>,
                       launches: seq<Launch>, rank: map<string, nat>, n: nat,
                       run: (Task, seq<TaskResult>) -> Outcome, i: nat)
    requires SameResults(results, completed) && LaunchesAt(plan, launches, results, completed, run)
    requires WavesAt(plan, completed, rank, n) && i < |results|
    ensures |launches| == |results|
    ensures !ReachesCycle(plan, results[i].taskId) && !results[i].kind.DependencyCycle?
  {
    hide ReachesCycle, Ranked, AllHanded;
    assert Answers(results[i], launches[i], run);
    RankedAvoidsCycle(plan, rank, results[i].taskId);
  }

  lemma FinishedScheduled(plan: seq<Task>, completed: map<string, TaskResult>, results: seq<TaskResult>,
                          launches: seq<Launch>, rank: map<string, nat>, n: nat,
                          run: (Task, seq<TaskResult>) -> Outcome)
    requires Invariant(plan, [], completed, results, launches, rank, n, run) && completed == Recorded(results)
    ensures Scheduled(plan, launches, results, run)
  {
    hide Ids, Partition, SameResults, AllGiven, AllHanded, LaunchedAfterDependencies, WavesAt, ReachesCycle, FailureOf,
         OneResultEach, Recorded;
    FinishedIds(plan, completed);
    AllDone(plan, completed, results);
    HandedGiven(plan, launches, completed, results);
    forall i | 0 <= i < |results| ensures !ReachesCycle(plan, results[i].taskId) && !results[i].kind.DependencyCycle? {
      WorkersResults(plan, completed, results, launches, rank, n, run, i);
    }
  }

  lemma StuckGiven(plan: seq<Task>, pending: seq<Task>, completed: map<string, TaskResult>, results: seq<TaskResult>,
                   launches: seq<Launch>, completed': map<string, TaskResult>, results': seq<TaskResult>)
    requires Partition(plan, pending, completed)
    requires Reporting(plan, pending, |pending|, completed, results, launches, completed', results')
    ensures AllGiven(plan, launches, results')
  {
    assert pending[..|pending|] == pending;
    StuckIds(plan, pending, completed);
    HandedGiven(plan, launches, completed', results');
  }

  lemma StuckFailures(plan: seq<Task>, pending: seq<Task>, completed: map<string, TaskResult>, results: seq<TaskResult>,
                      results': seq<TaskResult>)
    requires Partition(plan, pending, completed) && results' == results + CycleResults(pending)
    ensures forall i :: |results| <= i < |results'| ==> FailureOf(plan, results'[i])
  {
    forall i | |results| <= i < |results'| ensures FailureOf(plan, results'[i]) {
      assert pending[i - |results|] in pending;
    }
  }

  lemma StuckScheduled(plan: seq<Task>, pending: seq<Task>, completed: map<string, TaskResult>,
                       results: seq<TaskResult>, launches: seq<Launch>, rank: map<string, nat>, n: nat,
                       run: (Task, seq<TaskResult>) -> Outcome, completed': map<string, TaskResult>,
                       results': seq<TaskResult>)
    requires Invariant(plan, pending, completed, results, launches, rank, n, run)
    requires forall t :: t in pending ==> !IsReady(t, pending, completed)
    requires Reporting(plan, pending, |pending|, completed, results, launches, completed', results')
    ensures Scheduled(plan, launches, results', run)
  {
    hide Answers, Given, AllGiven, AllHanded, FailureOf, WavesAt, ReachesCycle, IsReady, OneResultEach,
      LaunchedAfterDependencies, SameResults, Partition, CycleResults;
    assert pending[..|pending|] == pending;
    StuckEach(plan, pending, completed, results', completed');
    LaunchesKept(plan, launches, results, results', run);
    StuckGiven(plan, pending, completed, results, launches, completed', results');
    StuckFailures(plan, pending, completed, results, results');
    StuckKinds(plan, pending, completed, results, launches, rank, n, run, results');
  }

  lemma StuckEach(plan: seq<Task>, pending: seq<Task>, completed: map<string, TaskResult>, results': seq<TaskResult>,
                  completed': map<string, TaskResult>)
    requires Partition(plan, pending, completed) && SameResults(results', completed')
    requires completed'.Keys == completed.Keys + Ids(pending)
    ensures OneResultEach(plan, results')
  {
    StuckIds(plan, pending, completed);
    AllDone(plan, completed', results');
  }

  lemma StuckKinds(plan: seq<Task>, pending: seq<Task>, completed: map<string, TaskResult>, results: seq<TaskResult>,
                   launches: seq<Launch>, rank: map<string, nat>, n: nat, run: (Task, seq<TaskResult>) -> Outcome,
                   results': seq<TaskResult>)
    requires Invariant(plan, pending, completed, results, launches, rank, n, run)
    requires forall t :: t in pending ==> !IsReady(t, pending, completed)
    requires results' == results + CycleResults(pending)
    ensures forall i :: 0 <= i < |results'| ==> (results'[i].kind.DependencyCycle? <==> i >= |launches|)
    ensures forall i :: 0 <= i < |results'| ==>
              (results'[i].kind.DependencyCycle? <==> ReachesCycle(plan, results'[i].taskId))
  {
    hide AllHanded, LaunchedAfterDependencies, SameResults, Partition, CycleResults, Ids, ReachesCycle, IsReady;
    forall i | 0 <= i < |results'|
      ensures results'[i].kind.DependencyCycle? <==> i >= |launches|
      ensures results'[i].kind.DependencyCycle? <==> ReachesCycle(plan, results'[i].taskId)
    {
      StuckKind(plan, pending, completed, results, launches, run, results', i);
      StuckReachCycle(plan, pending, completed, rank, results'[i].taskId);
    }
  }

  /** In the final list, worker results come first and the cycle failures are those of the pending tasks. */
  lemma StuckKind(plan: seq<Task>, pending: seq<Task>, completed: map<string, TaskResult>, results: seq<TaskResult>,
                  launches: seq<Launch>, run: (Task, seq<TaskResult>) -> Outcome, results': seq<TaskResult>, i: nat)
    requires Partition(plan, pending, completed) && SameResults(results, completed)
    requires LaunchedAfterDependencies(plan, launches, results, run) && |launches| == |results|
    requires results' == results + CycleResults(pending) && i < |results'|
    ensures results'[i].taskId in Ids(plan)
    ensures results'[i].kind.DependencyCycle? <==> i >= |launches|
    ensures results'[i].kind.DependencyCycle? <==> results'[i].taskId in Ids(pending)
  {
  }

  lemma StuckIds(plan: seq<Task>, pending: seq<Task>, completed: map<string, TaskResult>)
    requires Partition(plan, pending, completed)
    ensures completed.Keys + Ids(pending) == Ids(plan)
  {
  }

  lemma LaunchesKept(plan: seq<Task>, launches: seq<Launch>, results: seq<TaskResult>, results': seq<TaskResult>,
                     run: (Task, seq<TaskResult>) -> Outcome)
    requires LaunchedAfterDependencies(plan, launches, results, run)
    requires results <= results'
    ensures LaunchedAfterDependencies(plan, launches, results', run)
  {
  }

  /** Some pending task waits for no pending task. */
  ghost predicate CanStart(t: Task, left: seq<Task>) {
    t in left && forall dep :: dep in t.dependencies ==> dep !in Ids(left)
  }

  ghost predicate SomeCanStart(left: seq<Task>) {
    exists t :: CanStart(t, left)
  }

  /** The results are exactly those of the planned tasks that are not left. */
  ghost predicate ResultsBut(plan: seq<Task>, left: seq<Task>, results: seq<TaskResult>) {
    forall id :: (id in Ids(plan) && id !in Ids(left)) <==> exists i :: 0 <= i < |results| && results[i].taskId == id
  }

  /**
   The workers started by the time the deadline passed: first those that completed, soundly, and, if it passed
   during a wave, then one for each task that could start, given the results there were.
   */
  ghost predicate StartedBy(plan: seq<Task>, left: seq<Task>, launches: seq<Launch>, during: bool,
                            run: (Task, seq<TaskResult>) -> Outcome)
  {
    exists results: seq<TaskResult> ::
      && ResultsBut(plan, left, results) && |results| <= |launches|
      && SoundSoFar(plan, launches[..|results|], Results(results), run)
      && Underway(plan, left, launches[|results|..], during, results)
  }

  ghost predicate Underway(plan: seq<Task>, left: seq<Task>, started: seq<Launch>, during: bool,
                           results: seq<TaskResult>)
  {
    && AllGiven(plan, started, results)
    && (forall i, k :: 0 <= i < k < |started| ==> started[i].task.id != started[k].task.id)
    && (forall i :: 0 <= i < |started| ==> CanStart(started[i].task, left))
    && (during <==> started != [])
    && (during ==> forall t :: CanStart(t, left) ==> exists i :: 0 <= i < |started| && started[i].task == t)
  }

  /** How the run ended: with `left` still pending, at a wave that showed `signal`. */
  ghost predicate Ended(plan: seq<Task>, left: seq<Task>, launches: seq<Launch>, r: Run, signal: Signal,
                        run: (Task, seq<TaskResult>) -> Outcome)
  {
    if left == [] then r.Results? && Scheduled(plan, launches, r.results, run)
    else if signal.expiredBefore then r.TimedOut? && StartedBy(plan, left, launches, false, run)
    else if signal.cancelled then
      r.Results? && ResultsBut(plan, left, r.results) && !Scheduled(plan, launches, r.results, run)
    else if SomeCanStart(left) then
      r.TimedOut? && signal.expiredDuring && StartedBy(plan, left, launches, true, run)
    else r.Results? && Scheduled(plan, launches, r.results, run)
  }

  lemma ResultsSoFar(plan: seq<Task>, pending: seq<Task>, completed: map<string, TaskResult>, results: seq<TaskResult>)
    requires Partition(plan, pending, completed) && SameResults(results, completed)
    ensures ResultsBut(plan, pending, results)
  {
    StuckIds(plan, pending, completed);
    forall t | t in pending ensures t.id !in completed {
      PendingNotCompleted(plan, pending, completed, t);
    }
    forall id | id in completed ensures exists i :: 0 <= i < |results| && results[i].taskId == id {
      assert completed[id] in results;
    }
  }

  lemma LeftUnscheduled(plan: seq<Task>, left: seq<Task>, launches: seq<Launch>, results: seq<TaskResult>,
                        run: (Task, seq<TaskResult>) -> Outcome)
    requires ResultsBut(plan, left, results) && left != [] && forall t :: t in left ==> t in plan
    ensures !Scheduled(plan, launches, results, run)
  {
    assert left[0].id in Ids(plan) && left[0].id in Ids(left) by { assert left[0] in left && left[0] in plan; }
  }

  lemma ReadyCanStart(plan: seq<Task>, pending: seq<Task>, completed: map<string, TaskResult>, ready: seq<Task>)
    requires Partition(plan, pending, completed)
    requires forall t :: t in ready <==> t in pending && IsReady(t, pending, completed)
    ensures forall t :: t in ready <==> CanStart(t, pending)
    ensures ready != [] <==> SomeCanStart(pending)
  {
    forall t, dep | t in pending && dep in t.dependencies && dep in Ids(pending)
      ensures !IsReady(t, pending, completed) {
      var other :| other in pending && other.id == dep;
      PendingNotCompleted(plan, pending, completed, other);
    }
    if ready != [] {
      assert ready[0] in ready;
    }
  }

  /** What was reported is sound, however the run ended. */
  ghost predicate SoundSoFar(plan: seq<Task>, launches: seq<Launch>, r: Run, run: (Task, seq<TaskResult>) -> Outcome) {
    r.Results? ==>
      && UniqueResults(r.results) && LaunchedAfterDependencies(plan, launches, r.results, run)
      && AllGiven(plan, launches, r.results)
  }

  ghost predicate Concluded(plan: seq<Task>, left: seq<Task>, launches: seq<Launch>, r: Run, signal: Signal,
                            run: (Task, seq<TaskResult>) -> Outcome)
  {
    SoundSoFar(plan, launches, r, run) && Ended(plan, left, launches, r, signal, run)
  }

  ghost predicate Looping(plan: seq<Task>, pending: seq<Task>, completed: map<string, TaskResult>,
                          results: seq<TaskResult>, launches: seq<Launch>, rank: map<string, nat>, wave: nat,
                          run: (Task, seq<TaskResult>) -> Outcome)
  {
    Invariant(plan, pending, completed, results, launches, rank, wave, run) && completed == Recorded(results)
  }

  lemma ConcludeScheduled(plan: seq<Task>, left: seq<Task>, launches: seq<Launch>, results: seq<TaskResult>,
                          signal: Signal, run: (Task, seq<TaskResult>) -> Outcome)
    requires Scheduled(plan, launches, results, run)
    requires left == [] || (!signal.expiredBefore && !signal.cancelled && !SomeCanStart(left))
    ensures Concluded(plan, left, launches, Results(results), signal, run)
  {
  }

  lemma ConcludeTimedOut(plan: seq<Task>, left: seq<Task>, launches: seq<Launch>, signal: Signal,
                         run: (Task, seq<TaskResult>) -> Outcome)
    requires left != []
    requires signal.expiredBefore || (!signal.cancelled && signal.expiredDuring && SomeCanStart(left))
    requires StartedBy(plan, left, launches, !signal.expiredBefore, run)
    ensures Concluded(plan, left, launches, TimedOut, signal, run)
  {
  }

  lemma ReadyCleared(plan: seq<Task>, pending: seq<Task>, completed: map<string, TaskResult>, t: Task)
    requires Partition(plan, pending, completed) && IsReady(t, pending, completed)
    ensures Cleared(plan, t, completed)
  {
    forall dep | dep in t.dependencies && dep in Ids(plan) ensures dep in completed {
      var other :| other in plan && other.id == dep;
      assert other in pending <==> dep !in completed;
    }
  }

  /** The workers of a wave are given what was there when it started. */
  lemma WaveUnderway(plan: seq<Task>, pending: seq<Task>, completed: map<string, TaskResult>, results: seq<TaskResult>,
                     ready: seq<Task>, started: seq<Launch>)
    requires Partition(plan, pending, completed) && SameResults(results, completed) && DistinctIds(ready)
    requires forall t :: t in ready <==> t in pending && IsReady(t, pending, completed)
    requires ready != [] && |started| == |ready|
    requires forall i :: 0 <= i < |ready| ==> started[i] == Launched(ready[i], completed)
    ensures Underway(plan, pending, started, true, results)
  {
    ReadyCanStart(plan, pending, completed, ready);
    forall i | 0 <= i < |started| ensures Handed(plan, started[i], completed) {
      assert ready[i] in ready;
      ReadyCleared(plan, pending, completed, ready[i]);
    }
    HandedGiven(plan, started, completed, results);
  }

  lemma StartedBefore(plan: seq<Task>, pending: seq<Task>, completed: map<string, TaskResult>,
                      results: seq<TaskResult>, launches: seq<Launch>, rank: map<string, nat>, wave: nat,
                      run: (Task, seq<TaskResult>) -> Outcome, started: seq<Launch>, during: bool)
    requires Looping(plan, pending, completed, results, launches, rank, wave, run)
    requires Underway(plan, pending, started, during, results)
    ensures StartedBy(plan, pending, launches + started, during, run)
  {
    ResultsSoFar(plan, pending, completed, results);
    HandedGiven(plan, launches, completed, results);
    assert (launches + started)[..|results|] == launches && (launches + started)[|results|..] == started;
  }

  lemma ConcludeCancelled(plan: seq<Task>, left: seq<Task>, completed: map<string, TaskResult>,
                          results: seq<TaskResult>, launches: seq<Launch>, rank: map<string, nat>, wave: nat,
                          signal: Signal, run: (Task, seq<TaskResult>) -> Outcome)
    requires Looping(plan, left, completed, results, launches, rank, wave, run)
    requires left != [] && !signal.expiredBefore && signal.cancelled
    ensures Concluded(plan, left, launches, Results(results), signal, run)
  {
    ResultsSoFar(plan, left, completed, results);
    HandedGiven(plan, launches, completed, results);
    LeftUnscheduled(plan, left, launches, results, run);
  }

  lemma UndisturbedScheduled(plan: seq<Task>, left: seq<Task>, launches: seq<Launch>, r: Run,
                             run: (Task, seq<TaskResult>) -> Outcome)
    requires Concluded(plan, left, launches, r, UNDISTURBED, run)
    ensures r.Results? && Scheduled(plan, launches, r.results, run)
  {
  }

  lemma StartLooping(plan: seq<Task>, run: (Task, seq<TaskResult>) -> Outcome)
    requires DistinctIds(plan)
    ensures Looping(plan, plan, map[], [], [], map[], 0, run)
  {
  }

  /** A wave with nothing ready: the run ends with the cycle failures. */
  method EndStuck(ghost plan: seq<Task>, pending: seq<Task>, completed: map<string, TaskResult>,
                  results: seq<TaskResult>, ghost launches: seq<Launch>, ghost rank: map<string, nat>, ghost wave: nat,
                  ghost signal: Signal, ghost run: (Task, seq<TaskResult>) -> Outcome)
    returns (r: Run)
    requires Looping(plan, pending, completed, results, launches, rank, wave, run)
    requires forall t :: t in pending ==> !IsReady(t, pending, completed)
    requires !signal.expiredBefore && !signal.cancelled && !SomeCanStart(pending)
    ensures Concluded(plan, pending, launches, r, signal, run)
  {
    var completed', results' := ReportCycle(plan, pending, completed, results, launches);
    StuckScheduled(plan, pending, completed, results, launches, rank, wave, run, completed', results');
    ConcludeScheduled(plan, pending, launches, results', signal, run);
    r := Results(results');
  }

  /** One round of the loop: the run ends, or a wave is gathered. */
  method RunWave(ghost plan: seq<Task>, pending: seq<Task>, completed: map<string, TaskResult>,
                 results: seq<TaskResult>, launches: seq<Launch>, ghost rank: map<string, nat>, ghost wave: nat,
                 signal: Signal, run: (Task, seq<TaskResult>) -> Outcome)
    returns (ended: Option<Run>, rest: seq<Task>, completed': map<string, TaskResult>, results': seq<TaskResult>,
             launches': seq<Launch>, ghost rank': map<string, nat>)
    requires pending != [] && Looping(plan, pending, completed, results, launches, rank, wave, run)
    ensures ended.Some? ==> Concluded(plan, pending, launches', ended.value, signal, run)
    ensures ended.None? ==>
      && signal == UNDISTURBED && |rest| < |pending|
      && Looping(plan, rest, completed', results', launches', rank', wave + 1, run)
  {
    ended, rest, completed', results', launches', rank' := None, pending, completed, results, launches, rank;
    if signal.expiredBefore {
      StartedBefore(plan, pending, completed, results, launches, rank, wave, run, [], false);
      assert launches + [] == launches;
      ConcludeTimedOut(plan, pending, launches, signal, run);
      ended := Some(TimedOut);
      return;
    }
    if signal.cancelled {
      ConcludeCancelled(plan, pending, completed, results, launches, rank, wave, signal, run);
      ended := Some(Results(results));
      return;
    }
    var ready := CollectReady(pending, completed);
    ReadyCanStart(plan, pending, completed, ready);
    if ready == [] {
      var r := EndStuck(plan, pending, completed, results, launches, rank, wave, signal, run);
      ended := Some(r);
      return;
    }
    var started;
    rest, started := StartWave(ready, pending, completed);
    if signal.expiredDuring {
      WaveUnderway(plan, pending, completed, results, ready, started);
      StartedBefore(plan, pending, completed, results, launches, rank, wave, run, started, true);
      launches' := launches + started;
      ConcludeTimedOut(plan, pending, launches', signal, run);
      ended := Some(TimedOut);
      return;
    }
    completed', results', launches', rank' :=
      GatherWave(plan, ready, started, completed, results, launches, run, pending, rank, wave);
    RemovingShrinks(pending, ready);
  }

  /** The loop of `_execute_plan` over a pending dictionary. */
  method RunWaves(plan: seq<Task>, run: (Task, seq<TaskResult>) -> Outcome, signals: nat -> Signal)
    returns (r: Run, launches: seq<Launch>, ghost waves: nat, ghost left: seq<Task>)
    requires DistinctIds(plan)
    ensures forall w :: 0 <= w < waves ==> signals(w) == UNDISTURBED
    ensures Concluded(plan, left, launches, r, signals(waves), run)
  {
    hide Looping, Concluded, DistinctIds;
    var pending := plan;
    var completed: map<string, TaskResult> := map[];
    var results := [];
    launches := [];
    ghost var rank: map<string, nat> := map[];
    var wave := 0;
    StartLooping(plan, run);
    while pending != []
      invariant Looping(plan, pending, completed, results, launches, rank, wave, run)
      invariant forall w :: 0 <= w < wave ==> signals(w) == UNDISTURBED
      decreases |pending|
    {
      var ended, rest;
      ended, rest, completed, results, launches, rank :=
        RunWave(plan, pending, completed, results, launches, rank, wave, signals(wave), run);
      if ended.Some? {
        return ended.value, launches, wave, pending;
      }
      pending := rest;
      wave := wave + 1;
    }
    EndFinished(plan, completed, results, launches, rank, wave, signals(wave), run);
    r, waves, left := Results(results), wave, [];
  }

  lemma EndFinished(plan: seq<Task>, completed: map<string, TaskResult>, results: seq<TaskResult>,
                    launches: seq<Launch>, rank: map<string, nat>, wave: nat, signal: Signal,
                    run: (Task, seq<TaskResult>) -> Outcome)
    requires Looping(plan, [], completed, results, launches, rank, wave, run)
    ensures Concluded(plan, [], launches, Results(results), signal, run)
  {
    FinishedScheduled(plan, completed, results, launches, rank, wave, run);
    ConcludeScheduled(plan, [], launches, results, signal, run);
  }

  /**
   `_execute_plan`.  `signals(w)` is what the deadline and the cancel event show around wave w: the
   deadline before it, the cancel event, and the deadline while the wave runs or right after it.
   `launches` lists the workers in the order they were started, `waves` counts the waves gathered and
   `left` holds the tasks pending at the last one looked at.
   */
  method ExecutePlan(tasks: seq<Task>, run: (Task, seq<TaskResult>) -> Outcome, signals: nat -> Signal)
    returns (r: Run, launches: seq<Launch>, ghost waves: nat, ghost left: seq<Task>)
    // undisturbed, every task has one result, dependencies first, and the cycle failures are exactly the tasks on or
    // before a cycle
    ensures (forall w :: signals(w) == UNDISTURBED) ==>
              r.Results? && Scheduled(Pending(tasks), launches, r.results, run)
    // cancelled or not, what was reported is sound
    ensures SoundSoFar(Pending(tasks), launches, r, run)
    // every wave gathered was undisturbed, and what the next one shows decides how the run ends
    ensures forall w :: 0 <= w < waves ==> signals(w) == UNDISTURBED
    ensures Ended(Pending(tasks), left, launches, r, signals(waves), run)
  {
    PendingIsDictionary(tasks);
    ghost var plan := Pending(tasks);
    r, launches, waves, left := RunWaves(Pending(tasks), run, signals);
    if signals(waves) == UNDISTURBED {
      UndisturbedScheduled(plan, left, launches, r, run);
    }
  }
}
