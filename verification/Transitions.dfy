/**
 What the registry's sections do to one worker and to one task (runtime/lifecycle.py): each state is
 entered, each field changed and each record dropped exactly when these lemmas say.
 */
module Transitions {
  import opened Wrappers
  import opened Registry

  ghost predicate WorkerIs(s: State, w: string, state: WorkerState) {
    w in s.workers && s.workers[w].state == state
  }

  ghost predicate TaskIs(s: State, t: string, state: TaskState) {
    t in s.tasks && s.tasks[t].state == state
  }

  /** The worker has not ended. */
  ghost predicate Works(s: State, w: string) {
    w in s.workers && s.workers[w].state in {Created, Queued, Running, Waiting, Cancelling}
  }

  /** The task of this worker has not ended. */
  ghost predicate OpenFor(s: State, t: string, w: string) {
    (TaskIs(s, t, TaskPending) || TaskIs(s, t, TaskRunning)) && s.tasks[t].workerId == w
  }

  ghost predicate Stopping(s: State, w: string) {
    WorkerIs(s, w, Cancelling) || WorkerIs(s, w, Cancelled)
  }

  /** The event ends an open task of worker w. */
  ghost predicate EndsTaskOf(s: State, e: Event, w: string) {
    || (e.Finish? && OpenFor(s, e.task, w))
    || (e.Cancel? && OpenFor(s, e.task, w) && (w in s.workers ==> Works(s, w) || WorkerIs(s, w, Cancelled)))
  }

  // ---------------------------------------------------------------- one worker

  lemma CreatedIff(s: State, e: Event, w: string)
    requires Allowed(s, e) && !WorkerIs(s, w, Created)
    ensures WorkerIs(Apply(s, e), w, Created) <==>
            e.RegisterWorker? && e.worker == w && |set v | v in s.workers && Works(s, v)| < e.maxWorkers
  {
    assert Active(s) == set v | v in s.workers && Works(s, v);
  }

  lemma NewWorker(s: State, e: Event, w: string)
    requires w !in s.workers && w in Apply(s, e).workers
    ensures e.RegisterWorker? && e.worker == w && Apply(s, e).workers[w] == Worker(Created, None, None, false)
  {
  }

  lemma QueuedIff(s: State, e: Event, w: string)
    requires Allowed(s, e) && !WorkerIs(s, w, Queued)
    ensures WorkerIs(Apply(s, e), w, Queued) <==> e.RegisterTask? && e.worker == w && w in s.workers
  {
  }

  lemma RunningIff(s: State, e: Event, w: string)
    requires Allowed(s, e) && !WorkerIs(s, w, Running)
    ensures WorkerIs(Apply(s, e), w, Running) <==>
            e.Start? && TaskIs(s, e.task, TaskPending) && s.tasks[e.task].workerId == w
            && Works(s, w) && !Stopping(s, w)
  {
  }

  lemma CancellingIff(s: State, e: Event, w: string)
    requires Allowed(s, e) && !WorkerIs(s, w, Cancelling)
    ensures WorkerIs(Apply(s, e), w, Cancelling) <==> e == MarkCancelling(w) && Works(s, w)
  {
  }

  lemma CompleteIff(s: State, e: Event, w: string)
    requires Allowed(s, e) && !WorkerIs(s, w, Complete)
    ensures WorkerIs(Apply(s, e), w, Complete) <==>
            e.Finish? && e.ok && OpenFor(s, e.task, w) && w in s.workers && !Stopping(s, w)
  {
  }

  lemma FailedIff(s: State, e: Event, w: string)
    requires Allowed(s, e) && !WorkerIs(s, w, Failed)
    ensures WorkerIs(Apply(s, e), w, Failed) <==>
            e.Finish? && !e.ok && OpenFor(s, e.task, w) && w in s.workers && !Stopping(s, w)
  {
  }

  lemma CancelledIff(s: State, e: Event, w: string)
    requires Allowed(s, e) && !WorkerIs(s, w, Cancelled)
    ensures WorkerIs(Apply(s, e), w, Cancelled) <==>
            || (e.Finish? && OpenFor(s, e.task, w) && WorkerIs(s, w, Cancelling))
            || (e.Cancel? && OpenFor(s, e.task, w) && Works(s, w))
            || (e.FinishCancel? && e.worker == w && Works(s, w))
  {
  }

  lemma OtherStatesNever(s: State, e: Event, w: string)
    requires Allowed(s, e)
    ensures WorkerIs(Apply(s, e), w, TimedOut) ==> WorkerIs(s, w, TimedOut)
    ensures WorkerIs(Apply(s, e), w, Waiting) ==> WorkerIs(s, w, Waiting)
  {
  }

  /** Everything of a worker but its state. */
  lemma WorkerFields(s: State, e: Event, w: string)
    requires Allowed(s, e) && w in s.workers && w in Apply(s, e).workers
    ensures var before, after := s.workers[w], Apply(s, e).workers[w];
            && after.taskId == (if e.RegisterTask? && e.worker == w then Some(e.task) else before.taskId)
            && after.attached ==
               (!EndsTaskOf(s, e, w) && (before.attached || (e.Attach? && e.worker == w && Works(s, w))))
            && after.completedAt ==
               if EndsTaskOf(s, e, w) then Some(e.now)
               else if e.FinishCancel? && e.worker == w && Works(s, w) && before.completedAt.None? then Some(e.now)
               else before.completedAt
  {
  }

  /** A worker has ended long enough ago to be pruned. */
  ghost predicate Stale(s: State, w: string, cutoff: nat) {
    w in s.workers && !Works(s, w) && s.workers[w].completedAt.Some? && s.workers[w].completedAt.value < cutoff
  }

  /** A requested worker that has ended, so that its tasks are dropped unless they run. */
  ghost predicate Dropping(s: State, ids: set<string>, w: string) {
    w in ids && w in s.workers && !Works(s, w)
  }

  lemma WorkerKeptIff(s: State, e: Event, w: string)
    requires Allowed(s, e) && w in s.workers
    ensures w !in Apply(s, e).workers <==>
            || (e.Prune? && Stale(s, w, e.cutoff))
            || (e.Remove? && Dropping(s, e.ids, w)
                && (s.workers[w].taskId == None
                    || forall t :: t in s.tasks ==> !OpenFor(s, t, w) || TaskIs(s, t, TaskPending)))
  {
    if e.Remove? { IdleIff(s, e.ids, w); }
  }

  lemma IdleIff(s: State, ids: set<string>, w: string)
    requires w in s.workers
    ensures w in RemoveWorkers(s, ids).workers <==>
            !(Dropping(s, ids, w)
              && (s.workers[w].taskId == None
                  || forall t :: t in s.tasks ==> !OpenFor(s, t, w) || TaskIs(s, t, TaskPending)))
  {
    var left := TasksRemoved(s, ids).tasks;
    if Dropping(s, ids, w) {
      forall t | t in s.tasks
        ensures t in left && left[t].workerId == w <==> OpenFor(s, t, w) && !TaskIs(s, t, TaskPending) {
      }
    }
  }

  // ---------------------------------------------------------------- one task

  lemma TaskPendingIff(s: State, e: Event, t: string)
    requires Allowed(s, e) && !TaskIs(s, t, TaskPending)
    ensures TaskIs(Apply(s, e), t, TaskPending) <==> e.RegisterTask? && e.task == t && e.worker in s.workers
  {
  }

  lemma TaskRunningIff(s: State, e: Event, t: string)
    requires Allowed(s, e) && !TaskIs(s, t, TaskRunning)
    ensures TaskIs(Apply(s, e), t, TaskRunning) <==>
            e == Start(t) && TaskIs(s, t, TaskPending)
            && Works(s, s.tasks[t].workerId) && !Stopping(s, s.tasks[t].workerId)
  {
  }

  lemma TaskCompleteIff(s: State, e: Event, t: string)
    requires Allowed(s, e) && !TaskIs(s, t, TaskComplete)
    ensures TaskIs(Apply(s, e), t, TaskComplete) <==>
            e.Finish? && e.ok && e.task == t && t in s.tasks && OpenFor(s, t, s.tasks[t].workerId)
            && !Stopping(s, s.tasks[t].workerId)
  {
  }

  lemma TaskFailedIff(s: State, e: Event, t: string)
    requires Allowed(s, e) && !TaskIs(s, t, TaskFailed)
    ensures TaskIs(Apply(s, e), t, TaskFailed) <==>
            e.Finish? && !e.ok && e.task == t && t in s.tasks && OpenFor(s, t, s.tasks[t].workerId)
            && !Stopping(s, s.tasks[t].workerId)
  {
  }

  lemma TaskCancelledIff(s: State, e: Event, t: string)
    requires Allowed(s, e) && !TaskIs(s, t, TaskCancelled)
    ensures TaskIs(Apply(s, e), t, TaskCancelled) <==>
            && t in s.tasks && (e.Finish? || e.Cancel?) && e.task == t && EndsTaskOf(s, e, s.tasks[t].workerId)
            && (e.Finish? ==> Stopping(s, s.tasks[t].workerId))
  {
  }

  /** Everything of a task but its state; its slot flag is on exactly while it runs (`EventAccounted`). */
  lemma TaskFields(s: State, e: Event, t: string)
    requires Allowed(s, e) && t in s.tasks && t in Apply(s, e).tasks
    ensures var before, after := s.tasks[t], Apply(s, e).tasks[t];
            && after.workerId == before.workerId
            && after.completedAt ==
               if (e.Finish? || e.Cancel?) && e.task == t && EndsTaskOf(s, e, before.workerId) then Some(e.now)
               else before.completedAt
  {
    if e.Cancel? { CancelledTaskFields(s, e, t); }
  }

  lemma CancelledTaskFields(s: State, e: Event, t: string)
    requires e.Cancel? && t in s.tasks
    ensures t in Apply(s, e).tasks
    ensures var before, after := s.tasks[t], Apply(s, e).tasks[t];
            && after.workerId == before.workerId
            && after.completedAt ==
               if e.task == t && EndsTaskOf(s, e, before.workerId) then Some(e.now) else before.completedAt
  {
  }

  lemma NewTask(s: State, e: Event, t: string)
    requires Allowed(s, e) && t !in s.tasks && t in Apply(s, e).tasks
    ensures e.RegisterTask? && e.task == t && Apply(s, e).tasks[t] == TaskRecord(e.worker, TaskPending, false, None)
  {
  }

  lemma TaskKeptIff(s: State, e: Event, t: string)
    requires Allowed(s, e) && t in s.tasks
    ensures t !in Apply(s, e).tasks <==>
            || (e.Remove? && Dropping(s, e.ids, s.tasks[t].workerId) && !TaskIs(s, t, TaskRunning))
            || (e.Prune? && (Stale(s, s.tasks[t].workerId, e.cutoff)
                             || (!OpenFor(s, t, s.tasks[t].workerId) && s.tasks[t].completedAt.Some?
                                 && s.tasks[t].completedAt.value < e.cutoff)))
  {
  }

  // ---------------------------------------------------------------- cancelling a worker

  /** The first section of `cancel_worker` marks a worker that has not ended, and does nothing else. */
  lemma MarkedWhenWorking(s: State, w: string)
    ensures var after := Apply(s, MarkCancelling(w));
            && after.tasks == s.tasks && after.count == s.count && after.workers.Keys == s.workers.Keys
            && (forall v :: v in s.workers && v != w ==> after.workers[v] == s.workers[v])
            && (Works(s, w) ==> after.workers[w] == s.workers[w].(state := Cancelling))
            && (w in s.workers && !Works(s, w) ==> after.workers[w] == s.workers[w])
  {
  }

  lemma {:induction false} RunFrom(s: State, e: Event, events: seq<Event>)
    ensures Run(s, [e] + events) == Run(Apply(s, e), events)
    decreases |events|
  {
    var all := [e] + events;
    if events == [] {
      assert all == [e] && all[..0] == [];
    } else {
      var n := |events| - 1;
      RunFrom(s, e, events[..n]);
      assert all[..|all| - 1] == [e] + events[..n] && all[|all| - 1] == events[n];
    }
  }

  lemma AllowedFrom(s: State, e: Event, events: seq<Event>)
    requires AllAllowed(s, [e] + events)
    ensures AllAllowed(Apply(s, e), events)
  {
    hide Apply, Allowed;
    forall i | 0 <= i < |events| ensures Allowed(Run(Apply(s, e), events[..i]), events[i]) {
      RunFrom(s, e, events[..i]);
      assert ([e] + events)[..i + 1] == [e] + events[..i] && ([e] + events)[i + 1] == events[i];
    }
  }

  /** From its mark on, a worker that had not ended can end no other way than cancelled, unless it gets a new task. */
  lemma MarkedNeverFinishes(s: State, w: string, events: seq<Event>)
    requires Works(s, w) && AllAllowed(s, [MarkCancelling(w)] + events)
    requires forall e :: e in events ==> LeavesAlone(e, w)
    ensures var after := Run(s, [MarkCancelling(w)] + events); w in after.workers ==> Stopping(after, w)
  {
    hide Apply, Run, AllAllowed;
    MarkedWhenWorking(s, w);
    RunFrom(s, MarkCancelling(w), events);
    AllowedFrom(s, MarkCancelling(w), events);
    CancellationWins(Apply(s, MarkCancelling(w)), events, w);
  }
}
