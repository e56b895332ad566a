/**
 The worker and task registry (`TaskRegistry`, runtime/lifecycle.py).  Every lock-held section is one
 event; `Apply` is its effect, and a run is any interleaving of events.
 */
module Registry {
  import opened Wrappers

  datatype WorkerState = Created | Queued | Running | Waiting | Complete | Failed | Cancelling | Cancelled | TimedOut

  datatype TaskState = TaskPending | TaskRunning | TaskComplete | TaskFailed | TaskCancelled

  datatype Worker = Worker(state: WorkerState, taskId: Option<string>, completedAt: Option<nat>, attached: bool)

  datatype TaskRecord = TaskRecord(workerId: string, state: TaskState, slotAccounted: bool, completedAt: Option<nat>)

  datatype State = State(workers: map<string, Worker>, tasks: map<string, TaskRecord>, count: nat)

  predicate Terminal(s: WorkerState) {
    s.Complete? || s.Failed? || s.Cancelled? || s.TimedOut?
  }

  predicate TaskTerminal(s: TaskState) {
    s.TaskComplete? || s.TaskFailed? || s.TaskCancelled?
  }

  predicate BeingCancelled(s: WorkerState) {
    s.Cancelling? || s.Cancelled?
  }

  /** The lock-held sections.  `now` is the clock, ids are the fresh uuids drawn inside the section. */
  datatype Event =
    | RegisterWorker(worker: string, maxWorkers: nat)
    | Attach(worker: string)
    | RegisterTask(worker: string, task: string)
    | Start(task: string)
    | Finish(task: string, ok: bool, now: nat)   // complete_task, or fail_task when !ok
    | Cancel(task: string, now: nat)
    | MarkCancelling(worker: string)             // first section of cancel_worker
    | FinishCancel(worker: string, now: nat)     // last section of cancel_worker
    | Remove(ids: set<string>)
    | Prune(cutoff: nat)

  function Active(s: State): set<string> {
    set w | w in s.workers && !Terminal(s.workers[w].state)
  }

  function RunningTasks(s: State): set<string> {
    set t | t in s.tasks && s.tasks[t].state == TaskRunning
  }

  function Max0(n: int): nat {
    if n < 0 then 0 else n
  }

  function SetWorker(s: State, w: string, worker: Worker): State {
    s.(workers := s.workers[w := worker])
  }

  /** The task ends, giving back its slot. */
  function EndTask(s: State, id: string, state: TaskState, now: nat): State
    requires id in s.tasks
  {
    var t := s.tasks[id];
    if t.state == TaskRunning && t.slotAccounted
    then s.(count := Max0(s.count - 1),
            tasks := s.tasks[id := t.(state := state, slotAccounted := false, completedAt := Some(now))])
    else s.(tasks := s.tasks[id := t.(state := state, completedAt := Some(now))])
  }

  function EndWorker(s: State, w: string, state: WorkerState, now: nat): State {
    if w in s.workers
    then SetWorker(s, w, s.workers[w].(state := state, completedAt := Some(now), attached := false))
    else s
  }

  predicate Open(s: State, id: string) {
    id in s.tasks && !TaskTerminal(s.tasks[id].state)
  }

  function FinishTask(s: State, id: string, ok: bool, now: nat): State {
    if !Open(s, id) then s else
      var w := s.tasks[id].workerId;
      if w in s.workers && BeingCancelled(s.workers[w].state)
      then EndWorker(EndTask(s, id, TaskCancelled, now), w, Cancelled, now)
      else
        EndWorker(EndTask(s, id, if ok then TaskComplete else TaskFailed, now), w, if ok then Complete else Failed, now)
  }

  function CancelTask(s: State, id: string, now: nat): State {
    if !Open(s, id) then s else
      var w := s.tasks[id].workerId;
      if w in s.workers && Terminal(s.workers[w].state) && !s.workers[w].state.Cancelled? then s
      else EndWorker(EndTask(s, id, TaskCancelled, now), w, Cancelled, now)
  }

  function StartTask(s: State, id: string): State {
    if !(id in s.tasks && s.tasks[id].state == TaskPending) then s else
      var w := s.tasks[id].workerId;
      if !(w in s.workers) || Terminal(s.workers[w].state) || s.workers[w].state.Cancelling? then s
      else SetWorker(s, w, s.workers[w].(state := Running)).(
             count := s.count + 1, tasks := s.tasks[id := s.tasks[id].(state := TaskRunning, slotAccounted := true)])
  }

  function Removable(s: State, ids: set<string>): set<string> {
    set w | w in ids && w in s.workers && Terminal(s.workers[w].state)
  }

  function RemovedTasks(s: State, ids: set<string>): set<string> {
    set t | t in s.tasks && s.tasks[t].workerId in Removable(s, ids) && s.tasks[t].state != TaskRunning
  }

  function Slotted(s: State, gone: set<string>): set<string> {
    set t | t in gone && t in s.tasks && s.tasks[t].slotAccounted
  }

  /** The workers of a set that have no task left. */
  function Idle(workers: map<string, Worker>, among: set<string>, tasks: map<string, TaskRecord>): (idle: set<string>)
    ensures idle <= among && idle <= workers.Keys
  {
    set w | w in among && w in workers
            && (workers[w].taskId == None || forall t :: t in tasks ==> tasks[t].workerId != w)
  }

  function TasksRemoved(s: State, ids: set<string>): State {
    var gone := RemovedTasks(s, ids);
    State(s.workers, s.tasks - gone, Max0(s.count - |Slotted(s, gone)|))
  }

  function RemoveWorkers(s: State, ids: set<string>): State {
    var s' := TasksRemoved(s, ids);
    s'.(workers := s.workers - Idle(s.workers, Removable(s, ids), s'.tasks))
  }

  function PrunedWorkers(s: State, cutoff: nat): set<string> {
    set w | w in s.workers && Terminal(s.workers[w].state)
            && s.workers[w].completedAt.Some? && s.workers[w].completedAt.value < cutoff
  }

  predicate PrunedTask(s: State, cutoff: nat, t: string)
    requires t in s.tasks
  {
    || s.tasks[t].workerId in PrunedWorkers(s, cutoff)
    || (s.tasks[t].completedAt.Some? && s.tasks[t].completedAt.value < cutoff && TaskTerminal(s.tasks[t].state))
  }

  function PrunedTasks(s: State, cutoff: nat): set<string> {
    set t | t in s.tasks && PrunedTask(s, cutoff, t)
  }

  function PruneTerminal(s: State, cutoff: nat): State {
    s.(workers := s.workers - PrunedWorkers(s, cutoff),
       tasks := s.tasks - PrunedTasks(s, cutoff))
  }

  function Apply(s: State, e: Event): State {
    match e
    case RegisterWorker(w, maxWorkers) =>
      if |Active(s)| >= maxWorkers then s else SetWorker(s, w, Worker(Created, None, None, false))
    case Attach(w) =>
      if w in s.workers && !Terminal(s.workers[w].state) then SetWorker(s, w, s.workers[w].(attached := true)) else s
    case RegisterTask(w, t) =>
      if w !in s.workers then s
      else SetWorker(s, w, s.workers[w].(taskId := Some(t), state := Queued)).(
             tasks := s.tasks[t := TaskRecord(w, TaskPending, false, None)])
    case Start(t) => StartTask(s, t)
    case Finish(t, ok, now) => FinishTask(s, t, ok, now)
    case Cancel(t, now) => CancelTask(s, t, now)
    case MarkCancelling(w) =>
      if w in s.workers && !Terminal(s.workers[w].state) then SetWorker(s, w, s.workers[w].(state := Cancelling)) else s
    case FinishCancel(w, now) =>
      if w in s.workers && !Terminal(s.workers[w].state)
      then SetWorker(s, w, s.workers[w].(state := Cancelled,
                       completedAt := if s.workers[w].completedAt.Some? then s.workers[w].completedAt else Some(now)))
      else s
    case Remove(ids) => RemoveWorkers(s, ids)
    case Prune(cutoff) => PruneTerminal(s, cutoff)
  }

  // ---------------------------------------------------------------- slot accounting

  ghost predicate Accounted(s: State) {
    && s.count == |RunningTasks(s)|
    && forall t :: t in s.tasks ==> (s.tasks[t].slotAccounted <==> s.tasks[t].state == TaskRunning)
  }

  /** What the code relies on: uuids are fresh, and pruning meets no running task under a terminal worker. */
  ghost predicate Allowed(s: State, e: Event) {
    match e
    case RegisterWorker(w, _) => w !in s.workers
    case RegisterTask(_, t) => t !in s.tasks
    case Prune(cutoff) => PruneIsClean(s, cutoff)
    case _ => true
  }

  ghost predicate PruneIsClean(s: State, cutoff: nat) {
    forall t :: t in RunningTasks(s) ==> s.tasks[t].workerId !in PrunedWorkers(s, cutoff)
  }

  lemma EndTaskAccounted(s: State, id: string, state: TaskState, now: nat)
    requires Accounted(s) && id in s.tasks && TaskTerminal(state)
    ensures Accounted(EndTask(s, id, state, now))
    ensures s.tasks[id].state == TaskRunning && s.tasks[id].slotAccounted ==> s.count > 0
  {
    var s' := EndTask(s, id, state, now);
    assert RunningTasks(s') == RunningTasks(s) - {id};
    if id in RunningTasks(s) {
      assert s.tasks[id].slotAccounted;
    }
  }

  lemma StartAccounted(s: State, id: string)
    requires Accounted(s)
    ensures Accounted(StartTask(s, id))
  {
    var s' := StartTask(s, id);
    if s' != s {
      assert RunningTasks(s') == RunningTasks(s) + {id};
    }
  }

  lemma RemoveAccounted(s: State, ids: set<string>)
    requires Accounted(s)
    ensures Accounted(RemoveWorkers(s, ids))
    ensures RemoveWorkers(s, ids).count == s.count
  {
    var gone := RemovedTasks(s, ids);
    assert Slotted(s, gone) == {};
    assert RunningTasks(RemoveWorkers(s, ids)) == RunningTasks(s);
  }

  /** Pruning does not touch the count, so the books balance afterwards exactly when no running task was pruned. */
  lemma PruneAccountedIff(s: State, cutoff: nat)
    requires Accounted(s)
    ensures Accounted(PruneTerminal(s, cutoff)) <==> PruneIsClean(s, cutoff)
  {
    var s' := PruneTerminal(s, cutoff);
    assert RunningTasks(s') <= RunningTasks(s);
    if PruneIsClean(s, cutoff) {
      assert RunningTasks(s') == RunningTasks(s);
    } else {
      var t :| t in RunningTasks(s) && s.tasks[t].workerId in PrunedWorkers(s, cutoff);
      assert t !in RunningTasks(s');
      Smaller(RunningTasks(s'), RunningTasks(s), t);
    }
  }

  lemma Smaller(a: set<string>, b: set<string>, x: string)
    requires a <= b && x in b && x !in a
    ensures |a| < |b|
  {
    assert b == (b - a) + a;
    assert x in b - a;
  }

  lemma EventAccounted(s: State, e: Event)
    requires Accounted(s) && Allowed(s, e)
    ensures Accounted(Apply(s, e))
  {
    match e
    case RegisterTask(w, t) => assert RunningTasks(Apply(s, e)) == RunningTasks(s);
    case Start(t) => StartAccounted(s, t);
    case Finish(t, ok, now) => FinishAccounted(s, t, ok, now);
    case Cancel(t, now) => CancelAccounted(s, t, now);
    case Remove(ids) => RemoveAccounted(s, ids);
    case Prune(cutoff) => PruneAccountedIff(s, cutoff);
    case _ => assert RunningTasks(Apply(s, e)) == RunningTasks(s);
  }

  lemma EndWorkerAccounted(s: State, w: string, state: WorkerState, now: nat)
    requires Accounted(s)
    ensures Accounted(EndWorker(s, w, state, now))
  {
  }

  lemma FinishAccounted(s: State, id: string, ok: bool, now: nat)
    requires Accounted(s)
    ensures Accounted(FinishTask(s, id, ok, now))
  {
    if Open(s, id) {
      var w := s.tasks[id].workerId;
      var stopped := w in s.workers && BeingCancelled(s.workers[w].state);
      var state := if stopped then TaskCancelled else if ok then TaskComplete else TaskFailed;
      EndTaskAccounted(s, id, state, now);
      var ended := if stopped then Cancelled else if ok then Complete else Failed;
      EndWorkerAccounted(EndTask(s, id, state, now), w, ended, now);
    }
  }

  lemma CancelAccounted(s: State, id: string, now: nat)
    requires Accounted(s)
    ensures Accounted(CancelTask(s, id, now))
  {
    if Open(s, id) {
      EndTaskAccounted(s, id, TaskCancelled, now);
      EndWorkerAccounted(EndTask(s, id, TaskCancelled, now), s.tasks[id].workerId, Cancelled, now);
    }
  }

  // ---------------------------------------------------------------- runs

  function Run(s: State, events: seq<Event>): State {
    if events == [] then s else Apply(Run(s, events[..|events| - 1]), events[|events| - 1])
  }

  /** Every event of the run happens in a state that allows it. */
  ghost predicate AllAllowed(s: State, events: seq<Event>) {
    forall i :: 0 <= i < |events| ==> Allowed(Run(s, events[..i]), events[i])
  }

  lemma AllowedPrefix(s: State, events: seq<Event>, n: nat)
    requires AllAllowed(s, events) && n <= |events|
    ensures AllAllowed(s, events[..n])
  {
    forall i | 0 <= i < n ensures Allowed(Run(s, events[..n][..i]), events[..n][i]) {
      assert events[..n][..i] == events[..i];
    }
  }

  const EMPTY := State(map[], map[], 0)

  /** Slot accounting holds in every interleaving, so no clamp ever fires. */
  lemma {:induction false} RunAccounted(s: State, events: seq<Event>)
    requires Accounted(s) && AllAllowed(s, events)
    ensures Accounted(Run(s, events))
    decreases |events|
  {
    if events != [] {
      var n := |events| - 1;
      AllowedPrefix(s, events, n);
      RunAccounted(s, events[..n]);
      EventAccounted(Run(s, events[..n]), events[n]);
    }
  }

  /** Two tasks on one worker: the second has ended the worker while the first still runs. */
  const TWO_TASKS := State(
    map["w" := Worker(Complete, Some("b"), Some(0), false)],
    map["a" := TaskRecord("w", TaskRunning, true, None), "b" := TaskRecord("w", TaskComplete, false, Some(0))],
    1)

  lemma TwoTasksReached()
    ensures var first := Apply(Apply(Apply(EMPTY, RegisterWorker("w", 1)), RegisterTask("w", "a")), Start("a"));
            Apply(Apply(first, RegisterTask("w", "b")), Finish("b", true, 0)) == TWO_TASKS
  {
  }

  /** Pruning then drops the running task and its slot stays counted for ever. */
  lemma PruneLeakExample()
    ensures Accounted(TWO_TASKS) && PruneTerminal(TWO_TASKS, 1) == State(map[], map[], 1)
    ensures !Accounted(PruneTerminal(TWO_TASKS, 1))
  {
    assert RunningTasks(TWO_TASKS) == {"a"};
    assert PrunedWorkers(TWO_TASKS, 1) == {"w"};
    assert PrunedTasks(TWO_TASKS, 1) == {"a", "b"};
    assert RunningTasks(State(map[], map[], 1)) == {};
  }

  // ---------------------------------------------------------------- terminal tasks absorb

  lemma TerminalTaskAbsorbs(s: State, e: Event, t: string)
    requires Allowed(s, e) && t in s.tasks && TaskTerminal(s.tasks[t].state)
    ensures t in Apply(s, e).tasks ==> Apply(s, e).tasks[t] == s.tasks[t]
  {
  }

  /** A task that has ended keeps its record, whatever happens, until the record is dropped. */
  lemma {:induction false} TerminalTaskKept(s: State, events: seq<Event>, t: string)
    requires AllAllowed(s, events) && t in s.tasks && TaskTerminal(s.tasks[t].state)
    requires forall i :: 0 <= i <= |events| ==> t in Run(s, events[..i]).tasks
    ensures t in Run(s, events).tasks && Run(s, events).tasks[t] == s.tasks[t]
    decreases |events|
  {
    assert events[..|events|] == events;
    if events != [] {
      var n := |events| - 1;
      AllowedPrefix(s, events, n);
      forall i | 0 <= i <= n ensures t in Run(s, events[..n][..i]).tasks {
        assert events[..n][..i] == events[..i];
      }
      TerminalTaskKept(s, events[..n], t);
      TerminalTaskAbsorbs(Run(s, events[..n]), events[n], t);
    }
  }

  // ---------------------------------------------------------------- cancellation wins

  /** Only a new task can take a worker out of cancellation. */
  lemma CancellationLeftIff(s: State, e: Event, w: string)
    requires Allowed(s, e) && w in s.workers && BeingCancelled(s.workers[w].state)
    ensures w in Apply(s, e).workers && !BeingCancelled(Apply(s, e).workers[w].state) <==>
              e.RegisterTask? && e.worker == w
  {
  }

  ghost predicate StaysCancelled(s: State, w: string) {
    w in s.workers ==> BeingCancelled(s.workers[w].state)
  }

  /** Neither a new task for worker w nor a reuse of its id. */
  ghost predicate LeavesAlone(e: Event, w: string) {
    (e.RegisterTask? || e.RegisterWorker?) ==> e.worker != w
  }

  lemma CancellationKept(s: State, e: Event, w: string)
    requires Allowed(s, e) && LeavesAlone(e, w) && StaysCancelled(s, w)
    ensures StaysCancelled(Apply(s, e), w)
  {
  }

  /** Once marked, a worker never becomes complete or failed. */
  lemma {:induction false} CancellationWins(s: State, events: seq<Event>, w: string)
    requires AllAllowed(s, events) && (forall e :: e in events ==> LeavesAlone(e, w)) && StaysCancelled(s, w)
    ensures StaysCancelled(Run(s, events), w)
    decreases |events|
  {
    if events != [] {
      var n := |events| - 1;
      CancellationWins(s, events[..n], w) by {
        AllowedPrefix(s, events, n);
        assert forall e :: e in events[..n] ==> e in events;
      }
      var before, last := Run(s, events[..n]), events[n];
      assert Allowed(before, last) && last in events;
      CancellationKept(before, last, w);
    }
  }

  // ---------------------------------------------------------------- the worker limit

  ghost predicate RegistersOnLive(s: State, e: Event) {
    e.RegisterTask? && e.worker in s.workers ==> !Terminal(s.workers[e.worker].state)
  }

  /** No event but a registration makes a worker active. */
  lemma ActiveGrows(s: State, e: Event)
    requires RegistersOnLive(s, e)
    ensures Active(Apply(s, e)) <=
              Active(s) + (if e.RegisterWorker? && |Active(s)| < e.maxWorkers then {e.worker} else {})
  {
    hide Apply;
    forall w | w in Active(Apply(s, e))
      ensures w in Active(s) || (e.RegisterWorker? && |Active(s)| < e.maxWorkers && w == e.worker) {
      LiveBefore(s, e, w);
    }
  }

  predicate Live(s: State, w: string) {
    w in s.workers && !Terminal(s.workers[w].state)
  }

  lemma LiveBefore(s: State, e: Event, w: string)
    requires RegistersOnLive(s, e) && Live(Apply(s, e), w)
    ensures Live(s, w) || (e.RegisterWorker? && |Active(s)| < e.maxWorkers && w == e.worker)
  {
    hide Active;
  }

  lemma WorkersBounded(s: State, e: Event, maxWorkers: nat)
    requires |Active(s)| <= maxWorkers && RegistersOnLive(s, e)
    requires e.RegisterWorker? ==> e.maxWorkers == maxWorkers
    ensures |Active(Apply(s, e))| <= maxWorkers
  {
    ActiveGrows(s, e);
    if e.RegisterWorker? && |Active(s)| < e.maxWorkers {
      Larger(Active(Apply(s, e)), Active(s) + {e.worker});
    } else {
      Larger(Active(Apply(s, e)), Active(s));
    }
  }

  /** Over any run that registers tasks on live workers only. */
  lemma {:induction false} RunWorkersBounded(s: State, events: seq<Event>, maxWorkers: nat)
    requires |Active(s)| <= maxWorkers
    requires forall i :: 0 <= i < |events| ==> RegistersOnLive(Run(s, events[..i]), events[i])
    requires forall e :: e in events && e.RegisterWorker? ==> e.maxWorkers == maxWorkers
    ensures |Active(Run(s, events))| <= maxWorkers
    decreases |events|
  {
    hide Apply, Active, RegistersOnLive;
    if events != [] {
      var n := |events| - 1;
      var front := events[..n];
      forall i | 0 <= i < n ensures RegistersOnLive(Run(s, front[..i]), front[i]) {
        assert front[..i] == events[..i];
      }
      assert events[n] in events && forall e :: e in front ==> e in events;
      RunWorkersBounded(s, front, maxWorkers);
      var before := Run(s, front);
      WorkersBounded(before, events[n], maxWorkers);
    }
  }

  lemma Larger(a: set<string>, b: set<string>)
    requires a <= b
    ensures |a| <= |b|
  {
    assert b == (b - a) + a;
  }

  // ---------------------------------------------------------------- one task per worker

  /** Each task is the one task of its worker, and a worker ends only with its task. */
  ghost predicate Wired(s: State) {
    forall t :: t in s.tasks ==> TaskWired(s, t)
  }

  ghost predicate TaskWired(s: State, t: string)
    requires t in s.tasks
  {
    && s.tasks[t].workerId in s.workers && s.workers[s.tasks[t].workerId].taskId == Some(t)
    && (Terminal(s.workers[s.tasks[t].workerId].state) ==> TaskTerminal(s.tasks[t].state))
  }

  /** The engine's discipline: fresh ids, one task registered once per live worker, `cancel_task` before the end. */
  ghost predicate Disciplined(s: State, e: Event) {
    match e
    case RegisterWorker(w, _) => w !in s.workers && forall t :: t in s.tasks ==> s.tasks[t].workerId != w
    case RegisterTask(w, t) =>
      t !in s.tasks && (w in s.workers ==> s.workers[w].taskId == None && !Terminal(s.workers[w].state))
    case FinishCancel(w, _) => TaskEnded(s, w)
    case _ => true
  }

  ghost predicate TaskEnded(s: State, w: string) {
    w in s.workers && s.workers[w].taskId.Some? && s.workers[w].taskId.value in s.tasks ==>
      TaskTerminal(s.tasks[s.workers[w].taskId.value].state)
  }

  lemma WiredKept(s: State, e: Event)
    requires Wired(s) && Disciplined(s, e)
    ensures Wired(Apply(s, e))
  {
    var s' := Apply(s, e);
    forall t | t in s'.tasks ensures TaskWired(s', t) {
      assert t in s.tasks ==> TaskWired(s, t);
      if e.Finish? || e.Cancel? || e.Start? {
        TaskEventWired(s, e, t);
      } else {
        OtherEventWired(s, e, t);
      }
    }
  }

  lemma TaskEventWired(s: State, e: Event, t: string)
    requires e.Finish? || e.Cancel? || e.Start?
    requires t in s.tasks && TaskWired(s, t) && (e.task in s.tasks ==> TaskWired(s, e.task))
    ensures t in Apply(s, e).tasks && TaskWired(Apply(s, e), t)
  {
    if e.Finish? {
      FinishWired(s, e, t);
    } else if e.Cancel? {
      CancelWired(s, e, t);
    } else {
      StartWired(s, e, t);
    }
  }

  /** Ending a task and its worker leaves every task wired. */
  lemma EndWired(s: State, id: string, state: TaskState, ending: WorkerState, now: nat, t: string)
    requires Open(s, id) && TaskWired(s, id) && t in s.tasks && TaskWired(s, t)
    requires TaskTerminal(state)
    ensures var next := EndWorker(EndTask(s, id, state, now), s.tasks[id].workerId, ending, now);
            t in next.tasks && TaskWired(next, t)
  {
  }

  lemma FinishWired(s: State, e: Event, t: string)
    requires e.Finish? && t in s.tasks && TaskWired(s, t) && (e.task in s.tasks ==> TaskWired(s, e.task))
    ensures t in Apply(s, e).tasks && TaskWired(Apply(s, e), t)
  {
    hide EndWorker, EndTask;
    if Open(s, e.task) {
      EndWired(s, e.task, TaskCancelled, Cancelled, e.now, t);
      EndWired(s, e.task, if e.ok then TaskComplete else TaskFailed, if e.ok then Complete else Failed, e.now, t);
    }
  }

  lemma CancelWired(s: State, e: Event, t: string)
    requires e.Cancel? && t in s.tasks && TaskWired(s, t) && (e.task in s.tasks ==> TaskWired(s, e.task))
    ensures t in Apply(s, e).tasks && TaskWired(Apply(s, e), t)
  {
    hide EndWorker, EndTask;
    if Open(s, e.task) { EndWired(s, e.task, TaskCancelled, Cancelled, e.now, t); }
  }

  lemma StartWired(s: State, e: Event, t: string)
    requires e.Start? && t in s.tasks && TaskWired(s, t) && (e.task in s.tasks ==> TaskWired(s, e.task))
    ensures t in Apply(s, e).tasks && TaskWired(Apply(s, e), t)
  {
  }

  lemma OtherEventWired(s: State, e: Event, t: string)
    requires !(e.Finish? || e.Cancel? || e.Start?) && Disciplined(s, e) && t in Apply(s, e).tasks
    requires t in s.tasks ==> TaskWired(s, t)
    ensures TaskWired(Apply(s, e), t)
  {
  }

  /** Under that discipline no running task sits under a terminal worker, so pruning is clean too. */
  lemma DisciplinedAllowed(s: State, e: Event)
    requires Wired(s) && Disciplined(s, e)
    ensures Allowed(s, e)
  {
  }

  ghost predicate AllDisciplined(s: State, events: seq<Event>) {
    forall i :: 0 <= i < |events| ==> Disciplined(Run(s, events[..i]), events[i])
  }

  /** With one task per worker, every interleaving keeps the books balanced and no task runs under an ended worker. */
  lemma {:induction false} DisciplinedRun(s: State, events: seq<Event>)
    requires Wired(s) && Accounted(s) && AllDisciplined(s, events)
    ensures Wired(Run(s, events)) && Accounted(Run(s, events))
    decreases |events|
  {
    if events != [] {
      var n := |events| - 1;
      var front := events[..n];
      forall i | 0 <= i < n ensures Disciplined(Run(s, front[..i]), front[i]) {
        assert front[..i] == events[..i];
      }
      DisciplinedRun(s, front);
      var before := Run(s, front);
      assert Disciplined(before, events[n]);
      WiredKept(before, events[n]);
      DisciplinedAllowed(before, events[n]);
      EventAccounted(before, events[n]);
    }
  }

  // ---------------------------------------------------------------- while nothing is registered

  /** What any number of sections that register nothing can do to the registry. */
  ghost predicate Later(s: State, s': State) {
    && Wired(s') && Accounted(s')
    && s'.workers.Keys <= s.workers.Keys && s'.tasks.Keys <= s.tasks.Keys
    && (forall w :: w in s'.workers ==> WorkerLater(s.workers[w], s'.workers[w]))
    && (forall t :: t in s'.tasks && TaskTerminal(s.tasks[t].state) ==> s'.tasks[t] == s.tasks[t])
  }

  ghost predicate WorkerLater(a: Worker, b: Worker) {
    && (Terminal(a.state) ==> b == a) && (BeingCancelled(a.state) ==> BeingCancelled(b.state)) && b.taskId == a.taskId
  }

  lemma LaterRefl(s: State)
    requires Wired(s) && Accounted(s)
    ensures Later(s, s)
  {
  }

  lemma LaterBooks(s: State, s': State)
    requires Later(s, s')
    ensures Wired(s') && Accounted(s')
  {
  }

  lemma LaterWorkers(s: State, s': State)
    requires Later(s, s')
    ensures s'.workers.Keys <= s.workers.Keys
  {
  }

  lemma LaterTrans(a: State, b: State, c: State)
    requires Later(a, b) && Later(b, c)
    ensures Later(a, c)
  {
  }

  /** A terminal worker and its result stay as they are until they are removed. */
  lemma EventIsLater(s: State, e: Event)
    requires Wired(s) && Accounted(s) && Disciplined(s, e) && !e.RegisterTask? && !e.RegisterWorker?
    ensures Later(s, Apply(s, e))
  {
    WiredKept(s, e);
    DisciplinedAllowed(s, e);
    EventAccounted(s, e);
    var s' := Apply(s, e);
    forall w | w in s'.workers ensures w in s.workers && WorkerLater(s.workers[w], s'.workers[w]) {
      WorkerEvent(s, e, w);
    }
    forall t | t in s'.tasks ensures t in s.tasks && (TaskTerminal(s.tasks[t].state) ==> s'.tasks[t] == s.tasks[t]) {
      TaskEvent(s, e, t);
    }
  }

  lemma WorkerEvent(s: State, e: Event, w: string)
    requires Wired(s) && Disciplined(s, e) && !e.RegisterTask? && !e.RegisterWorker? && w in Apply(s, e).workers
    ensures w in s.workers && WorkerLater(s.workers[w], Apply(s, e).workers[w])
  {
  }

  lemma TaskEvent(s: State, e: Event, t: string)
    requires Disciplined(s, e) && !e.RegisterTask? && !e.RegisterWorker? && t in Apply(s, e).tasks
    ensures t in s.tasks && (TaskTerminal(s.tasks[t].state) ==> Apply(s, e).tasks[t] == s.tasks[t])
  {
  }

  ghost predicate Ended(s: State, w: string) {
    w in s.workers ==> Terminal(s.workers[w].state)
  }

  /** A worker that has not ended. */
  ghost predicate Working(s: WorkerState) {
    s in {Created, Queued, Running, Waiting, Cancelling}
  }

  /** Nothing is added or dropped, and the other workers and their tasks are as they were. */
  ghost predicate SameButFor(a: State, b: State, ids: set<string>) {
    && b.workers.Keys == a.workers.Keys && b.tasks.Keys == a.tasks.Keys
    && (forall v :: v in a.workers && v !in ids ==> b.workers[v] == a.workers[v])
    && (forall t :: t in a.tasks ==> b.tasks[t].workerId == a.tasks[t].workerId)
    && (forall t :: t in a.tasks && a.tasks[t].workerId !in ids ==> b.tasks[t] == a.tasks[t])
  }

  /** The same of the records that are left, where only those of these workers may be missing. */
  ghost predicate LeftButFor(a: State, b: State, ids: set<string>) {
    && (forall v :: v in a.workers && v !in ids ==> v in b.workers && b.workers[v] == a.workers[v])
    && (forall t :: t in a.tasks && a.tasks[t].workerId !in ids ==> t in b.tasks && b.tasks[t] == a.tasks[t])
  }

  /** The first i workers of the list. */
  ghost function First(ids: seq<string>, i: nat): set<string> {
    set k | 0 <= k < i && k < |ids| :: ids[k]
  }

  lemma FirstAll(ids: seq<string>)
    ensures First(ids, |ids|) == set w | w in ids
  {
  }

  lemma SameButForMore(a: State, b: State, c: State, ids: seq<string>, i: nat)
    requires i < |ids| && SameButFor(a, b, First(ids, i)) && SameButFor(b, c, {ids[i]})
    ensures SameButFor(a, c, First(ids, i + 1))
  {
    assert First(ids, i + 1) == First(ids, i) + {ids[i]};
  }

  lemma SameButForAll(a: State, b: State, ids: seq<string>, i: nat)
    requires i <= |ids| && SameButFor(a, b, First(ids, i))
    ensures SameButFor(a, b, First(ids, |ids|))
  {
    assert First(ids, i) <= First(ids, |ids|);
  }

  lemma SameKeys(a: State, b: State, ids: set<string>)
    requires SameButFor(a, b, ids)
    ensures b.workers.Keys == a.workers.Keys && b.tasks.Keys == a.tasks.Keys && LeftButFor(a, b, ids)
  {
  }

  lemma SameTrans(a: State, b: State, c: State, ids: set<string>)
    requires SameButFor(a, b, ids) && SameButFor(b, c, ids)
    ensures SameButFor(a, c, ids)
  {
  }

  lemma SameRefl(s: State, ids: set<string>)
    ensures SameButFor(s, s, ids)
  {
  }

  lemma RemovalLeaves(a: State, b: State, ids: set<string>)
    requires SameButFor(a, b, ids)
    ensures LeftButFor(a, RemoveWorkers(b, ids), ids)
  {
  }

  ghost predicate HasTask(s: State, w: string, taskId: Option<string>) {
    w in s.workers ==> s.workers[w].taskId == taskId
  }

  /** The task a worker names, if it is there, is its own: no id of a task was used for two workers. */
  ghost predicate Own(s: State, w: string) {
    w in s.workers && s.workers[w].taskId.Some? && s.workers[w].taskId.value in s.tasks ==>
      s.tasks[s.workers[w].taskId.value].workerId == w
  }

  ghost predicate EachOwn(s: State) {
    forall w :: w in s.workers ==> Own(s, w)
  }

  lemma OwnOf(s: State, w: string)
    requires EachOwn(s)
    ensures Own(s, w)
  {
  }

  lemma OwnKept(a: State, b: State, ids: set<string>)
    requires EachOwn(a) && Later(a, b) && SameButFor(a, b, ids)
    ensures EachOwn(b)
  {
    forall w | w in b.workers ensures Own(b, w) {
      assert Own(a, w) && WorkerLater(a.workers[w], b.workers[w]);
    }
  }

  lemma HasTaskLater(a: State, b: State, w: string, taskId: Option<string>)
    requires Later(a, b) && HasTask(a, w, taskId) && w in a.workers
    ensures HasTask(b, w, taskId)
  {
  }

  lemma EndedLater(a: State, b: State, w: string)
    requires Later(a, b) && Ended(a, w)
    ensures Ended(b, w)
  {
  }

  lemma TaskEndedLater(a: State, b: State, w: string)
    requires Later(a, b) && TaskEnded(a, w)
    ensures TaskEnded(b, w)
  {
  }

  /** Cancelling the task of a wired worker ends it whatever state the worker is in. */
  lemma CancelEnds(s: State, w: string, t: string, now: nat)
    requires Wired(s) && HasTask(s, w, Some(t))
    ensures TaskEnded(CancelTask(s, t, now), w)
  {
  }

  /** No task of the worker is open. */
  ghost predicate AllOver(s: State, w: string) {
    forall t :: t in s.tasks && s.tasks[t].workerId == w ==> TaskTerminal(s.tasks[t].state)
  }

  lemma OwnCancelled(s: State, w: string, t: string, now: nat)
    requires Wired(s) && Own(s, w) && w in s.workers && s.workers[w].taskId == Some(t) && Working(s.workers[w].state)
    ensures var s' := CancelTask(s, t, now);
            && s'.workers.Keys == s.workers.Keys && s'.tasks.Keys == s.tasks.Keys
            && (forall v :: v in s.workers && v != w ==> s'.workers[v] == s.workers[v])
            && (forall u :: u in s.tasks && u != t ==> s'.tasks[u] == s.tasks[u])
            && (Working(s'.workers[w].state) || s'.workers[w].state == Cancelled)
    ensures t in s.tasks ==> s.tasks[t].workerId == w
    ensures t in s.tasks ==>
              var after := CancelTask(s, t, now).tasks[t]; after.workerId == w && TaskTerminal(after.state)
  {
  }

  /** What marking leaves to the rest of `cancel_worker`. */
  lemma Marked(s: State, w: string)
    ensures var s' := Apply(s, MarkCancelling(w));
            && (Own(s, w) ==> Own(s', w)) && SameButFor(s, s', {w})
            && (w in s.workers && !Working(s.workers[w].state) ==> s' == s)
            && (w in s.workers && Working(s.workers[w].state) ==>
                  w in s'.workers && s'.workers[w] == s.workers[w].(state := Cancelling))
  {
  }

  lemma Concluded(s: State, w: string, now: nat)
    requires w in s.workers && (Working(s.workers[w].state) || s.workers[w].state == Cancelled)
    ensures var s' := Apply(s, FinishCancel(w, now));
            && s'.tasks == s.tasks && SameButFor(s, s', {w})
            && w in s'.workers && s'.workers[w].state == Cancelled
  {
  }

  /** Cancelling its own task leaves a working worker, or a cancelled one, without an open task. */
  lemma OwnLeaves(s: State, w: string, taskId: Option<string>, now: nat)
    requires Wired(s) && Own(s, w) && HasTask(s, w, taskId) && w in s.workers && Working(s.workers[w].state)
    ensures var m := if taskId.Some? then CancelTask(s, taskId.value, now) else s;
            && SameButFor(s, m, {w}) && AllOver(m, w) && w in m.workers
            && (Working(m.workers[w].state) || m.workers[w].state == Cancelled)
  {
    assert forall t :: t in s.tasks && s.tasks[t].workerId == w ==> TaskWired(s, t) && taskId == Some(t);
    if taskId.Some? {
      OwnCancelled(s, w, taskId.value, now);
    }
    hide CancelTask, TaskWired, Wired, Own;
  }

  /** What the rest of `cancel_worker` leaves when nothing comes between its sections. */
  lemma RestAlone(s: State, w: string, taskId: Option<string>, now: nat)
    requires Wired(s) && Own(s, w) && HasTask(s, w, taskId) && w in s.workers && Working(s.workers[w].state)
    ensures var m := if taskId.Some? then CancelTask(s, taskId.value, now) else s;
            var s' := Apply(m, FinishCancel(w, now));
            SameButFor(s, s', {w}) && w in s'.workers && s'.workers[w].state == Cancelled && AllOver(s', w)
  {
    hide Apply, CancelTask, Wired, Own, SameButFor, HasTask;
    var m := if taskId.Some? then CancelTask(s, taskId.value, now) else s;
    OwnLeaves(s, w, taskId, now);
    Concluded(m, w, now);
    SameTrans(s, m, Apply(m, FinishCancel(w, now)), {w});
  }

  ghost predicate FirstEnded(s: State, ids: seq<string>, n: nat) {
    forall k :: 0 <= k < n && k < |ids| ==> Ended(s, ids[k])
  }

  lemma FirstEndedNone(s: State, ids: seq<string>)
    ensures FirstEnded(s, ids, 0)
  {
  }

  lemma FirstEndedNext(a: State, b: State, ids: seq<string>, n: nat)
    requires Later(a, b) && n < |ids|
    ensures FirstEnded(a, ids, n) && Ended(b, ids[n]) ==> FirstEnded(b, ids, n + 1)
  {
  }

  /** With every worker of the set ended, removal takes them and all their tasks. */
  lemma RemoveEnded(s: State, ids: set<string>)
    requires Wired(s) && forall w :: w in ids ==> Ended(s, w)
    ensures var s' := RemoveWorkers(s, ids);
            && (forall w :: w in s'.workers <==> w in s.workers && w !in ids)
            && (forall t :: t in s'.tasks <==> t in s.tasks && s.tasks[t].workerId !in ids)
  {
  }

  /** `remove_workers` under way: the tasks in `todo` are still to be looked at. */
  ghost predicate Removing(start: State, ids: set<string>, todo: set<string>, s: State, removed: nat) {
    todo <= start.tasks.Keys && WithoutTasks(start, RemovedTasks(start, ids) - todo, s, removed)
  }

  ghost predicate WithoutTasks(start: State, gone: set<string>, s: State, removed: nat) {
    s == State(start.workers, start.tasks - gone, Max0(start.count - |Slotted(start, gone)|)) && removed == |gone|
  }

  lemma RemovingStart(s: State, ids: set<string>)
    ensures Removing(s, ids, s.tasks.Keys, s, 0)
  {
  }

  lemma RemovingEnd(start: State, ids: set<string>, s: State, removed: nat)
    requires Removing(start, ids, {}, s, removed)
    ensures s == TasksRemoved(start, ids) && removed == |RemovedTasks(start, ids)|
  {
  }

  lemma KeysDropped<K, V>(m: map<K, V>, gone: set<K>)
    requires gone <= m.Keys
    ensures m.Keys - (m - gone).Keys == gone
  {
  }

  lemma TaskDropped(start: State, gone: set<string>, t: string)
    requires t in start.tasks && t !in gone
    ensures start.tasks - (gone + {t}) == (start.tasks - gone) - {t}
    ensures Slotted(start, gone + {t}) == Slotted(start, gone) + (if start.tasks[t].slotAccounted then {t} else {})
    ensures t !in Slotted(start, gone)
  {
  }

  /** Dropping t, with any slot it holds. */
  function Dropped(s: State, t: string): State
    requires t in s.tasks
  {
    State(s.workers, s.tasks - {t}, if s.tasks[t].slotAccounted then Max0(s.count - 1) else s.count)
  }

  lemma RemovingHere(start: State, ids: set<string>, todo: set<string>, s: State, removed: nat, t: string)
    requires Removing(start, ids, todo, s, removed) && t in todo
    ensures t in s.tasks && s.tasks[t] == start.tasks[t] && s.workers == start.workers
    ensures t in RemovedTasks(start, ids) <==>
              s.tasks[t].workerId in Removable(start, ids) && s.tasks[t].state != TaskRunning
  {
  }

  lemma RemovingDrop(start: State, ids: set<string>, todo: set<string>, s: State, removed: nat, t: string)
    requires Removing(start, ids, todo, s, removed) && t in todo && t in RemovedTasks(start, ids)
    ensures t in s.tasks && Removing(start, ids, todo - {t}, Dropped(s, t), removed + 1)
  {
    hide RemovedTasks, WithoutTasks;
    var all := RemovedTasks(start, ids);
    assert all - (todo - {t}) == all - todo + {t};
    DropOne(start, all - todo, s, removed, t);
  }

  lemma DropOne(start: State, gone: set<string>, s: State, removed: nat, t: string)
    requires WithoutTasks(start, gone, s, removed) && t in start.tasks && t !in gone
    ensures t in s.tasks && WithoutTasks(start, gone + {t}, Dropped(s, t), removed + 1)
  {
    hide Slotted;
    TaskDropped(start, gone, t);
    SlotsDropped(start, gone, t);
  }

  lemma SlotsDropped(start: State, gone: set<string>, t: string)
    requires t in start.tasks && t !in gone
    ensures |Slotted(start, gone + {t})| == |Slotted(start, gone)| + (if start.tasks[t].slotAccounted then 1 else 0)
  {
    TaskDropped(start, gone, t);
    hide Slotted;
  }

  lemma RemovingKeep(start: State, ids: set<string>, todo: set<string>, s: State, removed: nat, t: string)
    requires Removing(start, ids, todo, s, removed) && t in todo && t !in RemovedTasks(start, ids)
    ensures Removing(start, ids, todo - {t}, s, removed)
  {
    var all := RemovedTasks(start, ids);
    assert all - (todo - {t}) == all - todo;
  }

  lemma RemovedKeepsWorkers(s: State, ids: set<string>)
    ensures TasksRemoved(s, ids).workers == s.workers
  {
  }

  // ---------------------------------------------------------------- the registry object

  class TaskRegistry {
    const maxWorkers: nat
    var workers: map<string, Worker>
    var tasks: map<string, TaskRecord>
    var count: nat

    constructor (maxWorkers: nat)
      ensures View() == EMPTY && this.maxWorkers == maxWorkers
    {
      this.maxWorkers := maxWorkers;
      workers, tasks, count := map[], map[], 0;
    }

    function View(): State
      reads this
    {
      State(workers, tasks, count)
    }

    /** False is the source's RuntimeError: the worker limit is reached. */
    method RegisterWorker(id: string) returns (ok: bool)
      modifies this
      ensures View() == Apply(old(View()), Event.RegisterWorker(id, maxWorkers))
      ensures ok <==> |Active(old(View()))| < maxWorkers
    {
      var active := set w | w in workers && !Terminal(workers[w].state);
      ok := |active| < maxWorkers;
      if ok {
        workers := workers[id := Worker(Created, None, None, false)];
      }
    }

    method AttachAsyncTask(id: string) returns (ok: bool)
      modifies this`workers
      ensures View() == Apply(old(View()), Attach(id))
      ensures ok <==> id in workers && !Terminal(workers[id].state)
    {
      ok := id in workers && !Terminal(workers[id].state);
      if ok {
        workers := workers[id := workers[id].(attached := true)];
      }
    }

    /** False is the source's KeyError. */
    method RegisterTask(worker: string, id: string) returns (ok: bool)
      modifies this
      ensures View() == Apply(old(View()), Event.RegisterTask(worker, id))
      ensures ok <==> worker in workers
    {
      ok := worker in workers;
      if ok {
        tasks := tasks[id := TaskRecord(worker, TaskPending, false, None)];
        workers := workers[worker := workers[worker].(taskId := Some(id), state := Queued)];
      }
    }

    method StartTask(id: string) returns (ok: bool)
      modifies this
      ensures View() == Apply(old(View()), Start(id))
      ensures ok <==> id in RunningTasks(View())
    {
      if id !in tasks { return false; }
      var record := tasks[id];
      if record.state != TaskPending { return record.state == TaskRunning; }
      if record.workerId !in workers || Terminal(workers[record.workerId].state)
         || workers[record.workerId].state.Cancelling? {
        return false;
      }
      tasks := tasks[id := record.(state := TaskRunning, slotAccounted := true)];
      count := count + 1;
      workers := workers[record.workerId := workers[record.workerId].(state := Running)];
      ok := true;
    }

    /** The slot and the task record, shared by every way a task can end. */
    method Settle(id: string, state: TaskState, now: nat)
      requires id in tasks
      modifies this`tasks, this`count
      ensures View() == EndTask(old(View()), id, state, now)
    {
      var record := tasks[id];
      if record.state == TaskRunning && record.slotAccounted {
        count := if count > 0 then count - 1 else 0;
        record := record.(slotAccounted := false);
      }
      tasks := tasks[id := record.(state := state, completedAt := Some(now))];
    }

    method SettleWorker(id: string, state: WorkerState, now: nat)
      modifies this`workers
      ensures View() == EndWorker(old(View()), id, state, now)
    {
      if id in workers {
        workers := workers[id := workers[id].(state := state, completedAt := Some(now), attached := false)];
      }
    }

    /** `complete_task` and, with !goal, `fail_task`. */
    method FinishTask(id: string, goal: bool, now: nat) returns (ok: bool)
      modifies this
      ensures View() == Apply(old(View()), Finish(id, goal, now))
      ensures ok <==>
                Open(old(View()), id) && id in tasks && tasks[id].state == if goal then TaskComplete else TaskFailed
    {
      if id !in tasks || TaskTerminal(tasks[id].state) { return false; }
      var worker := tasks[id].workerId;
      if worker in workers && BeingCancelled(workers[worker].state) {
        Settle(id, TaskCancelled, now);
        SettleWorker(worker, Cancelled, now);
        return false;
      }
      Settle(id, if goal then TaskComplete else TaskFailed, now);
      SettleWorker(worker, if goal then Complete else Failed, now);
      ok := true;
    }

    method CancelTask(id: string, now: nat) returns (ok: bool)
      modifies this
      ensures View() == Apply(old(View()), Cancel(id, now))
      ensures ok <==> Open(old(View()), id) && id in tasks && tasks[id].state == TaskCancelled
    {
      if id !in tasks || TaskTerminal(tasks[id].state) { return false; }
      var worker := tasks[id].workerId;
      if worker in workers && Terminal(workers[worker].state) && !workers[worker].state.Cancelled? { return false; }
      Settle(id, TaskCancelled, now);
      SettleWorker(worker, Cancelled, now);
      ok := true;
    }

    /** The lock is free: other coroutines, if there are any, may run any sections that register nothing. */
    method Yield(ghost alone: bool)
      requires Wired(View()) && Accounted(View())
      modifies this
      ensures Later(old(View()), View())
      ensures alone ==> View() == old(View())
    {
      LaterRefl(View());
    }

    /** First section of `cancel_worker`. */
    method Mark(id: string)
      modifies this`workers
      ensures View() == Apply(old(View()), MarkCancelling(id))
    {
      if id in workers && !Terminal(workers[id].state) {
        workers := workers[id := workers[id].(state := Cancelling)];
      }
    }

    /** Last section of `cancel_worker`. */
    method Conclude(id: string, now: nat)
      modifies this`workers
      ensures View() == Apply(old(View()), FinishCancel(id, now))
    {
      if id in workers && !Terminal(workers[id].state) {
        var worker := workers[id];
        workers := workers[id := worker.(
                             state := Cancelled,
                             completedAt := if worker.completedAt.Some? then worker.completedAt else Some(now))];
      }
    }

    /** The part of `cancel_worker` after the awaited task and the reaping. */
    method CancelRest(id: string, taskId: Option<string>, now: nat, ghost alone: bool)
      requires Wired(View()) && Accounted(View()) && HasTask(View(), id, taskId) && (alone ==> Own(View(), id))
      modifies this
      ensures Later(old(View()), View()) && Ended(View(), id)
      ensures alone && old(id in workers && Working(workers[id].state)) ==>
                && SameButFor(old(View()), View(), {id})
                && id in workers && workers[id].state == Cancelled && AllOver(View(), id)
    {
      hide SameButFor, AllOver, Own, Wired, Accounted;
      ghost var start := View();
      LaterRefl(start);
      if alone && id in workers && Working(workers[id].state) {
        RestAlone(start, id, taskId, now);
      }
      if taskId.Some? {
        EventIsLater(start, Cancel(taskId.value, now));
        CancelEnds(start, id, taskId.value, now);
        var cancelled := CancelTask(taskId.value, now);
      }
      ghost var middle := View();
      Yield(alone);
      ghost var after := View();
      LaterTrans(start, middle, after);
      TaskEndedLater(middle, after, id);
      EventIsLater(after, FinishCancel(id, now));
      Conclude(id, now);
      LaterTrans(start, after, View());
    }

    /** `cancel_worker`.  The awaited task may raise something other than cancellation; reaping may fail. */
    method CancelWorker(id: string, raises: bool, reaped: bool, now: nat, ghost alone: bool) returns (ok: bool)
      requires Wired(View()) && Accounted(View()) && (alone ==> Own(View(), id))
      modifies this
      ensures Later(old(View()), View())
      ensures !raises ==> Ended(View(), id)
      // it reports a failure exactly when the awaited task raised or a child was not reaped
      ensures ok <==>
                || id !in old(workers)
                || (reaped && !(raises && old(id in workers && Working(workers[id].state) && workers[id].attached)))
      ensures ok ==> Ended(View(), id)
      // with nobody else about, an ended worker is left alone, and of the others nothing changes
      ensures alone && old(id in workers ==> !Working(workers[id].state)) ==> View() == old(View())
      ensures alone && old(id in workers && Working(workers[id].state)) ==>
                && SameButFor(old(View()), View(), {id}) && id in workers
                && workers[id].state == (if raises && old(workers[id].attached) then Cancelling else Cancelled)
                && (workers[id].state == Cancelled ==> AllOver(View(), id))
      // a worker that had not ended is gone or cancelled, whatever its task did while it was awaited
      ensures !raises && old(id in workers && Working(workers[id].state)) ==>
                id in workers ==> workers[id].state == Cancelled
    {
      hide Apply, SameButFor, AllOver, Own, TaskEnded, Wired, Accounted;
      ghost var start := View();
      Marked(start, id);
      if id !in workers {
        LaterRefl(start);
        return true;
      }
      var terminal, attached, taskId := Terminal(workers[id].state), workers[id].attached, workers[id].taskId;
      EventIsLater(start, MarkCancelling(id));
      Mark(id);
      ghost var marked := View();
      LaterBooks(start, marked);
      Yield(alone);
      ghost var awaited := View();
      LaterTrans(start, marked, awaited);
      LaterBooks(start, awaited);
      if terminal {
        EndedLater(start, awaited, id);
        return reaped;
      }
      if attached && raises { return false; }
      HasTaskLater(start, awaited, id, taskId);
      CancelRest(id, taskId, now, alone);
      if alone { SameTrans(start, marked, View(), {id}); }
      LaterTrans(start, awaited, View());
      ok := reaped;
    }

    /** The ended tasks of the removable workers go, with any slot they still hold. */
    method RemoveTasks(ids: set<string>, removable: set<string>) returns (removed: nat)
      requires removable == Removable(View(), ids)
      modifies this`tasks, this`count
      ensures View() == TasksRemoved(old(View()), ids) && removed == |RemovedTasks(old(View()), ids)|
    {
      hide Removing, RemovedTasks, TasksRemoved, Removable;
      ghost var start := View();
      removed := 0;
      var todo := tasks.Keys;
      RemovingStart(start, ids);
      while todo != {}
        invariant Removing(start, ids, todo, View(), removed)
        decreases |todo|
      {
        var t :| t in todo;
        ghost var before := View();
        RemovingHere(start, ids, todo, before, removed, t);
        var record := tasks[t];
        if record.workerId in removable && record.state != TaskRunning {
          RemovingDrop(start, ids, todo, before, removed, t);
          if record.slotAccounted {
            count := if count > 0 then count - 1 else 0;
          }
          tasks := tasks - {t};
          removed := removed + 1;
          assert View() == Dropped(before, t);
        } else {
          RemovingKeep(start, ids, todo, before, removed, t);
        }
        todo := todo - {t};
      }
      RemovingEnd(start, ids, View(), removed);
    }

    /** `remove_workers` */
    method RemoveWorkers(ids: set<string>) returns (removed: nat)
      modifies this
      ensures View() == Apply(old(View()), Remove(ids))
      ensures removed == |RemovedTasks(old(View()), ids)| + |old(workers).Keys - workers.Keys|
    {
      hide TasksRemoved, RemovedTasks, Removable;
      var removable := Removable(View(), ids);
      RemovedKeepsWorkers(View(), ids);
      removed := RemoveTasks(ids, removable);
      var idle := Idle(workers, removable, tasks);
      KeysDropped(workers, idle);
      workers := workers - idle;
      removed := removed + |idle|;
    }

    /** `prune_terminal` */
    method PruneTerminal(cutoff: nat) returns (dropped: nat)
      modifies this
      ensures View() == Apply(old(View()), Prune(cutoff))
      ensures dropped == |old(workers).Keys - workers.Keys| + |old(tasks).Keys - tasks.Keys|
    {
      var oldWorkers, oldTasks := PrunedWorkers(View(), cutoff), PrunedTasks(View(), cutoff);
      KeysDropped(tasks, oldTasks);
      KeysDropped(workers, oldWorkers);
      tasks := tasks - oldTasks;
      workers := workers - oldWorkers;
      dropped := |oldTasks| + |oldWorkers|;
    }

    /** The removal that ends `cleanup`. */
    method Drop(ids: seq<string>)
      requires Wired(View()) && Accounted(View())
      modifies this
      ensures View() == Apply(old(View()), Remove(set w | w in ids))
      ensures Later(old(View()), View())
      ensures FirstEnded(old(View()), ids, |ids|) ==> forall w :: w in ids ==> w !in workers
      ensures FirstEnded(old(View()), ids, |ids|) && (forall w :: w in old(workers) ==> w in ids) ==> View() == EMPTY
    {
      var targets := set w | w in ids;
      EventIsLater(View(), Remove(targets));
      if FirstEnded(View(), ids, |ids|) {
        CleanedUp(View(), ids, targets);
      }
      var removed := RemoveWorkers(targets);
    }

    /** It stops at the first failure. */
    method CancelAll(ids: seq<string>, raises: string -> bool, reaped: string -> bool, now: nat, ghost alone: bool)
      returns (ok: bool)
      requires Wired(View()) && Accounted(View()) && (alone ==> EachOwn(View()))
      modifies this
      ensures Later(old(View()), View())
      ensures (forall w :: !raises(w) && reaped(w)) ==> ok
      ensures ok ==> FirstEnded(View(), ids, |ids|)
      ensures alone ==> SameButFor(old(View()), View(), set w | w in ids)
    {
      hide SameButFor, EachOwn, Own, Later, FirstEnded, First, Wired, Accounted;
      ghost var start := View();
      LaterRefl(start);
      SameRefl(start, First(ids, 0));
      FirstEndedNone(start, ids);
      for i := 0 to |ids|
        invariant Later(start, View()) && Wired(View()) && Accounted(View())
        invariant FirstEnded(View(), ids, i)
        invariant alone ==> EachOwn(View()) && SameButFor(start, View(), First(ids, i))
      {
        ghost var before := View();
        if alone { OwnOf(before, ids[i]); }
        var done := CancelWorker(ids[i], raises(ids[i]), reaped(ids[i]), now, alone);
        LaterBooks(before, View());
        LaterTrans(start, before, View());
        if alone {
          if View() == before { SameRefl(before, {ids[i]}); }
          OwnKept(before, View(), {ids[i]});
          SameButForMore(start, before, View(), ids, i);
        }
        if !done {
          if alone {
            SameButForAll(start, View(), ids, i + 1);
            FirstAll(ids);
          }
          return false;
        }
        FirstEndedNext(before, View(), ids, i);
      }
      FirstAll(ids);
      ok := true;
    }

    /**
     `cleanup`: cancel each worker, then remove.  `None` cleans up every worker.  Other coroutines, if there are
     any, run between the sections but register nothing.  `raises(w)` and `reaped(w)` are what awaiting and
     reaping w do.
     */
    method Cleanup(requested: Option<seq<string>>, raises: string -> bool, reaped: string -> bool, now: nat,
                   ghost alone: bool)
      returns (ok: bool)
      requires Wired(View()) && Accounted(View()) && (alone ==> EachOwn(View()))
      modifies this
      // whatever happens on the way, slots stay accounted and earlier outcomes are kept until they are removed
      ensures Later(old(View()), View())
      // when every task ends in cancellation and every child is reaped it succeeds
      ensures (forall w :: !raises(w) && reaped(w)) ==> ok
      // and then the workers and their tasks are gone
      ensures ok && requested.Some? ==> forall w :: w in requested.value ==> w !in workers
      ensures ok && requested.None? ==> workers == map[] && tasks == map[] && count == 0
      // with nobody else about, the workers not asked for are left alone, and a failure removes nothing
      ensures alone && requested.Some? ==> LeftButFor(old(View()), View(), set w | w in requested.value)
      ensures alone && !ok ==> workers.Keys == old(workers).Keys && tasks.Keys == old(tasks).Keys
    {
      hide SameButFor, LeftButFor, FirstEnded, EachOwn, Later, Wired, Accounted;
      ghost var start := View();
      var ids;
      if requested.Some? { ids := requested.value; } else { ids := Listed(workers.Keys); }
      ok := CancelAll(ids, raises, reaped, now, alone);
      ghost var ended := View();
      if alone { SameKeys(start, ended, set w | w in ids); }
      if !ok { return; }
      LaterBooks(start, ended);
      LaterWorkers(start, ended);
      if alone { RemovalLeaves(start, ended, set w | w in ids); }
      Drop(ids);
      LaterTrans(start, ended, View());
    }
  }

  /** The keys of a dictionary as a list. */
  method Listed(s: set<string>) returns (r: seq<string>)
    ensures forall w :: w in r <==> w in s
  {
    r := [];
    var left := s;
    while left != {}
      invariant left <= s && forall w :: w in r <==> w in s && w !in left
      decreases |left|
    {
      var w :| w in left;
      r, left := r + [w], left - {w};
    }
  }

  lemma CleanedUp(s: State, ids: seq<string>, targets: set<string>)
    requires Wired(s) && Accounted(s) && FirstEnded(s, ids, |ids|)
    requires targets == set w | w in ids
    ensures forall w :: w in ids ==> w !in RemoveWorkers(s, targets).workers
    ensures s.workers.Keys <= targets ==> RemoveWorkers(s, targets) == EMPTY
  {
  }

}
