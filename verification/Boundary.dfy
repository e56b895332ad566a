/**
 The worker lifecycle boundary (runtime/cancellation.py): project deadlines, the turn budget, and
 `enforce_worker_lifecycle`, whose every exit must leave the limiter as the other workers alone would
 have, and the start times as they were.  Time is the monotonic clock; the environment says how each
 await ends and what the others do meanwhile.
 */
module LifecycleBoundary {
  import opened Wrappers
  import Limiter

  datatype Deadline = Deadline(startedAt: real, expiresAt: real, expired: bool)

  function Least(a: real, b: real): real {
    if b < a then b else a
  }

  function Greatest(a: real, b: real): (r: real)
    ensures r >= a && r >= b && (r == a || r == b)
  {
    if a < b then b else a
  }

  /** The budget left to a team, None when it has no deadline. */
  function Budget(deadlines: map<string, Deadline>, team: string, now: real): Option<real> {
    if team !in deadlines then None
    else if deadlines[team].expiresAt < now then Some(0.0) else Some(deadlines[team].expiresAt - now)
  }

  predicate Spent(budget: Option<real>) {
    budget.Some? && budget.value <= 0.0
  }

  /** The same deadlines; reading one may have marked it expired. */
  ghost predicate SameDeadlines(a: map<string, Deadline>, b: map<string, Deadline>) {
    && a.Keys == b.Keys
    && forall t :: t in a ==> b[t] == a[t].(expired := b[t].expired) && (a[t].expired ==> b[t].expired)
  }

  lemma SameBudget(a: map<string, Deadline>, b: map<string, Deadline>, team: string, now: real)
    requires SameDeadlines(a, b)
    ensures Budget(a, team, now) == Budget(b, team, now)
  {
  }

  lemma SameDeadlinesTrans(a: map<string, Deadline>, b: map<string, Deadline>, c: map<string, Deadline>)
    requires SameDeadlines(a, b) && SameDeadlines(b, c)
    ensures SameDeadlines(a, c)
  {
  }

  // ---------------------------------------------------------------- deadlines over time

  datatype TeamEvent = StartTeam(team: string, at: real) | ReadTeam(team: string, at: real) | FinishTeam(team: string)

  function ApplyTeam(deadlines: map<string, Deadline>, e: TeamEvent, teamTimeout: real): map<string, Deadline> {
    match e
    case StartTeam(t, now) =>
      if t in deadlines then deadlines else deadlines[t := Deadline(now, now + teamTimeout, false)]
    case ReadTeam(t, now) =>
      if Spent(Budget(deadlines, t, now)) then deadlines[t := deadlines[t].(expired := true)] else deadlines
    case FinishTeam(t) => deadlines - {t}
  }

  function RunTeams(deadlines: map<string, Deadline>, events: seq<TeamEvent>,
                    teamTimeout: real): map<string, Deadline> {
    if events == [] then deadlines
    else ApplyTeam(RunTeams(deadlines, events[..|events| - 1], teamTimeout), events[|events| - 1], teamTimeout)
  }

  /** The budget of a started team is the team timeout, less the time gone by, until it is finished. */
  lemma StartedBudget(deadlines: map<string, Deadline>, team: string, now: real, later: real, teamTimeout: real)
    requires team !in deadlines
    ensures var started := ApplyTeam(deadlines, StartTeam(team, now), teamTimeout);
            && Budget(started, team, later) ==
               Some(if later - now > teamTimeout then 0.0 else teamTimeout - (later - now))
            && started[team].startedAt == now && !started[team].expired
            && Budget(ApplyTeam(started, FinishTeam(team), teamTimeout), team, later) == None
  {
  }

  /** Nothing done for one team touches the deadline of another, and only a spent budget marks one expired. */
  lemma OthersUntouched(deadlines: map<string, Deadline>, e: TeamEvent, team: string, teamTimeout: real)
    ensures var after := ApplyTeam(deadlines, e, teamTimeout);
            && (team != e.team ==> (team in after <==> team in deadlines)
                                   && (team in deadlines ==> after[team] == deadlines[team]))
            && (e.ReadTeam? && e.team == team ==>
                  (team in after <==> team in deadlines)
                  && (team in deadlines ==>
                        after[team] == deadlines[team].(expired := deadlines[team].expired
                                                                  || deadlines[team].expiresAt <= e.at)))
  {
  }

  /** Until a team is finished its deadline cannot move, however often it is started or read. */
  lemma {:induction false} DeadlineFixed(deadlines: map<string, Deadline>, events: seq<TeamEvent>, teamTimeout: real,
                                         team: string)
    requires team in deadlines && forall e :: e in events ==> !(e.FinishTeam? && e.team == team)
    ensures var after := RunTeams(deadlines, events, teamTimeout);
            && team in after
            && after[team].expiresAt == deadlines[team].expiresAt
            && after[team].startedAt == deadlines[team].startedAt
    decreases |events|
  {
    if events != [] {
      var n := |events| - 1;
      assert events[n] in events && forall e :: e in events[..n] ==> e in events;
      DeadlineFixed(deadlines, events[..n], teamTimeout, team);
    }
  }

  lemma {:induction false} RunTeamsBoth(deadlines: map<string, Deadline>, a: seq<TeamEvent>, b: seq<TeamEvent>,
                                        teamTimeout: real)
    ensures RunTeams(deadlines, a + b, teamTimeout) == RunTeams(RunTeams(deadlines, a, teamTimeout), b, teamTimeout)
    decreases |b|
  {
    hide ApplyTeam;
    if b == [] {
      assert a + b == a;
    } else {
      RunTeamsBoth(deadlines, a, b[..|b| - 1], teamTimeout);
      assert (a + b)[..|a + b| - 1] == a + b[..|b| - 1];
    }
  }

  /** The first start since a team was last finished sets its deadline, whatever else happens. */
  lemma FirstStartDecides(deadlines: map<string, Deadline>, a: seq<TeamEvent>, b: seq<TeamEvent>, teamTimeout: real,
                          team: string, now: real)
    requires team !in RunTeams(deadlines, a, teamTimeout)
    requires forall e :: e in b ==> !(e.FinishTeam? && e.team == team)
    ensures var after := RunTeams(deadlines, a + [StartTeam(team, now)] + b, teamTimeout);
            team in after && after[team].startedAt == now && after[team].expiresAt == now + teamTimeout
  {
    var before := RunTeams(deadlines, a, teamTimeout);
    RunTeamsBoth(deadlines, a + [StartTeam(team, now)], b, teamTimeout);
    assert (a + [StartTeam(team, now)])[..|a|] == a;
    DeadlineFixed(ApplyTeam(before, StartTeam(team, now), teamTimeout), b, teamTimeout, team);
  }

  /** A finished team has no deadline until it is started again. */
  lemma {:induction false} FinishedHasNone(deadlines: map<string, Deadline>, a: seq<TeamEvent>, b: seq<TeamEvent>,
                                           teamTimeout: real, team: string)
    requires forall e :: e in b ==> !(e.StartTeam? && e.team == team)
    ensures team !in RunTeams(deadlines, a + [FinishTeam(team)] + b, teamTimeout)
    decreases |b|
  {
    var events := a + [FinishTeam(team)] + b;
    if b == [] {
      assert events[..|events| - 1] == a;
    } else {
      var n := |b| - 1;
      assert events[..|events| - 1] == a + [FinishTeam(team)] + b[..n] && events[|events| - 1] == b[n] && b[n] in b;
      assert forall e :: e in b[..n] ==> e in b;
      FinishedHasNone(deadlines, a, b[..n], teamTimeout, team);
    }
  }

  /** So the budget only shrinks, by at least the time that passed until it is spent. */
  lemma BudgetShrinks(deadlines: map<string, Deadline>, events: seq<TeamEvent>, teamTimeout: real, team: string,
                      now: real, later: real)
    requires team in deadlines && now <= later && forall e :: e in events ==> !(e.FinishTeam? && e.team == team)
    ensures var left := Budget(RunTeams(deadlines, events, teamTimeout), team, later);
            var before := Budget(deadlines, team, now);
            && left.Some?
            && before.Some?
            && left.value <= before.value
            && (left.value > 0.0 ==> left.value + (later - now) == before.value)
  {
  }

  // ---------------------------------------------------------------- what others do to the enforcer

  /** A step of another coroutine: on some team's deadline, or on some task's start time. */
  datatype EnforcerEvent = OnTeam(step: TeamEvent) | StartTask(task: string, at: real) | FinishTask(task: string)

  function TeamsAfter(deadlines: map<string, Deadline>, events: seq<EnforcerEvent>,
                      teamTimeout: real): map<string, Deadline> {
    if events == [] then deadlines else
      var before := TeamsAfter(deadlines, events[..|events| - 1], teamTimeout);
      var last := events[|events| - 1];
      if last.OnTeam? then ApplyTeam(before, last.step, teamTimeout) else before
  }

  function TeamSteps(events: seq<EnforcerEvent>): seq<TeamEvent> {
    if events == [] then [] else
      var last := events[|events| - 1];
      TeamSteps(events[..|events| - 1]) + (if last.OnTeam? then [last.step] else [])
  }

  /** The deadlines are those of the steps on teams. */
  lemma {:induction false} TeamsAfterRuns(deadlines: map<string, Deadline>, events: seq<EnforcerEvent>,
                                          teamTimeout: real)
    ensures TeamsAfter(deadlines, events, teamTimeout) == RunTeams(deadlines, TeamSteps(events), teamTimeout)
    decreases |events|
  {
    hide ApplyTeam;
    if events != [] {
      var n := |events| - 1;
      TeamsAfterRuns(deadlines, events[..n], teamTimeout);
      var steps := TeamSteps(events[..n]);
      assert steps + [] == steps;
      if events[n].OnTeam? { assert (steps + [events[n].step])[..|steps|] == steps; }
    }
  }

  function StartsStep(starts: map<string, real>, e: EnforcerEvent): map<string, real> {
    match e
    case OnTeam(_) => starts
    case StartTask(task, at) => starts[task := at]
    case FinishTask(task) => starts - {task}
  }

  function StartsAfter(starts: map<string, real>, events: seq<EnforcerEvent>): map<string, real> {
    if events == [] then starts
    else StartsStep(StartsAfter(starts, events[..|events| - 1]), events[|events| - 1])
  }

  lemma {:induction false} TeamsAfterBoth(deadlines: map<string, Deadline>, a: seq<EnforcerEvent>,
                                          b: seq<EnforcerEvent>, teamTimeout: real)
    ensures TeamsAfter(deadlines, a + b, teamTimeout) ==
              TeamsAfter(TeamsAfter(deadlines, a, teamTimeout), b, teamTimeout)
    decreases |b|
  {
    hide ApplyTeam;
    if b == [] {
      assert a + b == a;
    } else {
      TeamsAfterBoth(deadlines, a, b[..|b| - 1], teamTimeout);
      assert (a + b)[..|a + b| - 1] == a + b[..|b| - 1];
    }
  }

  lemma {:induction false} StartsAfterBoth(starts: map<string, real>, a: seq<EnforcerEvent>, b: seq<EnforcerEvent>)
    ensures StartsAfter(starts, a + b) == StartsAfter(StartsAfter(starts, a), b)
    decreases |b|
  {
    hide StartsStep;
    if b == [] {
      assert a + b == a;
    } else {
      StartsAfterBoth(starts, a, b[..|b| - 1]);
      assert (a + b)[..|a + b| - 1] == a + b[..|b| - 1];
    }
  }

  lemma SameTeamStep(a: map<string, Deadline>, b: map<string, Deadline>, e: TeamEvent, teamTimeout: real)
    requires SameDeadlines(a, b)
    ensures SameDeadlines(ApplyTeam(a, e, teamTimeout), ApplyTeam(b, e, teamTimeout))
  {
  }

  /** Having read a deadline makes no difference to what the others make of it. */
  lemma {:induction false} SameTeamsAfter(a: map<string, Deadline>, b: map<string, Deadline>,
                                          events: seq<EnforcerEvent>, teamTimeout: real)
    requires SameDeadlines(a, b)
    ensures SameDeadlines(TeamsAfter(a, events, teamTimeout), TeamsAfter(b, events, teamTimeout))
    decreases |events|
  {
    if events != [] {
      var n := |events| - 1;
      SameTeamsAfter(a, b, events[..n], teamTimeout);
      if events[n].OnTeam? {
        SameTeamStep(TeamsAfter(a, events[..n], teamTimeout), TeamsAfter(b, events[..n], teamTimeout), events[n].step,
                     teamTimeout);
      }
    }
  }

  /** Nor does timing a task, to the other tasks' start times. */
  lemma {:induction false} StartsApart(a: map<string, real>, b: map<string, real>, events: seq<EnforcerEvent>,
                                       task: string)
    requires a - {task} == b - {task}
    ensures StartsAfter(a, events) - {task} == StartsAfter(b, events) - {task}
    decreases |events|
  {
    if events != [] {
      var n := |events| - 1;
      StartsApart(a, b, events[..n], task);
      StartsApartStep(StartsAfter(a, events[..n]), StartsAfter(b, events[..n]), events[n], task);
    }
  }

  lemma StartsApartStep(a: map<string, real>, b: map<string, real>, e: EnforcerEvent, task: string)
    requires a - {task} == b - {task}
    ensures StartsStep(a, e) - {task} == StartsStep(b, e) - {task}
  {
    match e
    case OnTeam(_) =>
    case StartTask(other, at) =>
      assert a[other := at] - {task} == if other == task then a - {task} else (a - {task})[other := at];
      assert b[other := at] - {task} == if other == task then b - {task} else (b - {task})[other := at];
    case FinishTask(other) =>
      assert a - {other} - {task} == a - {task} - {other};
      assert b - {other} - {task} == b - {task} - {other};
  }

  class TimeoutEnforcer {
    const taskTimeout: real
    const teamTimeout: real
    var starts: map<string, real>
    var deadlines: map<string, Deadline>

    constructor (taskTimeout: real, teamTimeout: real)
      ensures starts == map[] && deadlines == map[]
      ensures this.taskTimeout == (if taskTimeout < 0.001 then 0.001 else taskTimeout)
      ensures this.teamTimeout == (if teamTimeout < 0.001 then 0.001 else teamTimeout)
    {
      this.taskTimeout := if taskTimeout < 0.001 then 0.001 else taskTimeout;
      this.teamTimeout := if teamTimeout < 0.001 then 0.001 else teamTimeout;
      starts, deadlines := map[], map[];
    }

    method StartTeam(team: string, now: real) returns (deadline: Deadline)
      modifies this`deadlines
      ensures deadlines == ApplyTeam(old(deadlines), TeamEvent.StartTeam(team, now), teamTimeout)
      ensures team in deadlines && deadline == deadlines[team]
    {
      if team !in deadlines {
        deadlines := deadlines[team := Deadline(now, now + teamTimeout, false)];
      }
      deadline := deadlines[team];
    }

    method FinishTeam(team: string)
      modifies this`deadlines
      ensures deadlines == ApplyTeam(old(deadlines), TeamEvent.FinishTeam(team), teamTimeout)
    {
      deadlines := deadlines - {team};
    }

    /** `remaining_team_seconds` */
    method Remaining(team: string, now: real) returns (r: Option<real>)
      modifies this`deadlines
      ensures deadlines == ApplyTeam(old(deadlines), ReadTeam(team, now), teamTimeout)
      ensures r == Budget(old(deadlines), team, now) && SameDeadlines(old(deadlines), deadlines)
    {
      if team !in deadlines { return None; }
      var deadline := deadlines[team];
      var left := if deadline.expiresAt < now then 0.0 else deadline.expiresAt - now;
      if left <= 0.0 {
        deadlines := deadlines[team := deadline.(expired := true)];
      }
      r := Some(left);
    }

    /** Other coroutines run. */
    method Interleave(events: seq<EnforcerEvent>)
      modifies this`starts, this`deadlines
      ensures deadlines == TeamsAfter(old(deadlines), events, teamTimeout)
      ensures starts == StartsAfter(old(starts), events)
    {
      for i := 0 to |events|
        invariant deadlines == TeamsAfter(old(deadlines), events[..i], teamTimeout)
        invariant starts == StartsAfter(old(starts), events[..i])
      {
        assert events[..i + 1][..i] == events[..i];
        match events[i] {
          case OnTeam(step) => deadlines := ApplyTeam(deadlines, step, teamTimeout);
          case StartTask(task, at) => starts := starts[task := at];
          case FinishTask(task) => starts := starts - {task};
        }
      }
      assert events[..|events|] == events;
    }
  }

  // ---------------------------------------------------------------- waiting under a deadline

  /** How an awaited computation ends; it may raise a TimeoutError of its own. */
  datatype Ending = Returns | TimesOut | OwnTimeout | Raises | Interrupted

  predicate AsTimeout(e: Ending) {
    e.TimesOut? || e.OwnTimeout?
  }

  /** `PlainTimeout` is a TimeoutError passed on as it was raised. */
  datatype Outcome = Value | ProjectTimeout | TaskTimeout | PlainTimeout | Stopped | WorkerError | ReapFailure

  /** An awaitable that is not under a project deadline. */
  function Unsupervised(e: Ending): Outcome {
    match e
    case Returns => Value
    case TimesOut => PlainTimeout
    case OwnTimeout => PlainTimeout
    case Raises => WorkerError
    case Interrupted => Stopped
  }

  /** The project's budget, not the asked timeout, bounds the wait. */
  predicate ProjectLimited(budget: Option<real>, timeout: Option<real>) {
    budget.Some? && (timeout.None? || budget.value <= (if timeout.value < 0.0 then 0.0 else timeout.value))
  }

  /**
   `run_with_team_deadline`, with others stepping the enforcer during the wait.  `limit` is the timeout
   the awaitable is given, None for no limit.  The wait may only time out when there is a limit.
   */
  method RunWithTeamDeadline(enforcer: TimeoutEnforcer, team: string, timeout: Option<real>, start: real,
                             ending: Ending, end: real, others: seq<EnforcerEvent>)
    returns (r: Outcome, ghost limit: Option<real>)
    requires start <= end
    requires ending.TimesOut? ==> timeout.Some? || team in enforcer.deadlines
    modifies enforcer
    ensures SameDeadlines(TeamsAfter(old(enforcer.deadlines), others, enforcer.teamTimeout), enforcer.deadlines)
    ensures enforcer.starts == StartsAfter(old(enforcer.starts), others)
    ensures var budget := Budget(old(enforcer.deadlines), team, start);
            && (budget.Some? ==> limit.Some? && limit.value <= budget.value)
            && (timeout.Some? ==> limit.Some? && (limit.value <= timeout.value || limit.value == 0.0))
            && (limit.Some? <==> budget.Some? || timeout.Some?)
            && (limit.Some? ==> limit == budget || (timeout.Some? && limit.value == Greatest(0.0, timeout.value)))
    // a timeout is the project's exactly when its budget bounded the wait and is spent when it is looked at again
    ensures r.ProjectTimeout? <==>
              && AsTimeout(ending) && ProjectLimited(Budget(old(enforcer.deadlines), team, start), timeout)
              && Spent(Budget(TeamsAfter(old(enforcer.deadlines), others, enforcer.teamTimeout), team, end))
    ensures r.ProjectTimeout? <==>
              && (ending == TimesOut || ending == OwnTimeout)
              && limit.Some? && limit == Budget(old(enforcer.deadlines), team, start)
              && Spent(Budget(TeamsAfter(old(enforcer.deadlines), others, enforcer.teamTimeout), team, end))
    ensures r == Unsupervised(ending) || r.ProjectTimeout?
  {
    ghost var before := enforcer.deadlines;
    var remaining := enforcer.Remaining(team, start);
    ghost var read := enforcer.deadlines;
    enforcer.Interleave(others);
    SameTeamsAfter(before, read, others, enforcer.teamTimeout);
    ghost var seen := enforcer.deadlines;
    SameBudget(TeamsAfter(before, others, enforcer.teamTimeout), seen, team, end);
    var asked := if timeout.None? then None else if timeout.value < 0.0 then Some(0.0) else timeout;
    r := Unsupervised(ending);
    if remaining.None? {
      limit := asked;
      return;
    }
    var projectLimited := asked.None? || remaining.value <= asked.value;
    limit := Some(if asked.None? then remaining.value else Least(remaining.value, asked.value));
    if AsTimeout(ending) {
      var current := enforcer.Remaining(team, end);
      SameDeadlinesTrans(TeamsAfter(before, others, enforcer.teamTimeout), seen, enforcer.deadlines);
      if projectLimited && Spent(current) { r := ProjectTimeout; }
    }
  }

  // ---------------------------------------------------------------- the boundary

  /** How awaiting the canceller ends. */
  datatype Reap = Reaped | ReapFails | ReapInterrupted

  /** The canceller called from the handler of a cancellation. */
  function Handled(reap: Reap): Outcome {
    if reap.ReapFails? then ReapFailure else Stopped
  }

  /** The canceller called inside the try block: an interruption there reaches the handler, which calls it again. */
  function Reaping(meant: Outcome, reap: Reap, again: Reap): Outcome {
    match reap case Reaped => meant case ReapFails => ReapFailure case ReapInterrupted => Handled(again)
  }

  /**
   What happens around one worker: the clock at each reading, how each await ends, and what others do
   to the limiter and to the enforcer while it waits for its slot and from then until it leaves.
   */
  datatype Environment = Environment(
    entry: real,
    wait: Limiter.Wait,
    waitTimesOut: bool,          // a wait given up timed out; otherwise it was cancelled
    check: real,
    begin: real,
    ending: Ending,
    end: real,
    reap: Reap,
    again: Reap,
    running: seq<Limiter.Event>,
    waitingSteps: seq<EnforcerEvent>,
    runningSteps: seq<EnforcerEvent>)

  ghost predicate Clocked(env: Environment) {
    env.entry <= env.check <= env.begin <= env.end
  }

  /** The worker got its slot: it was not expired on entry and the limiter admitted it. */
  ghost predicate Admitted(deadlines: map<string, Deadline>, team: string, env: Environment) {
    !Spent(Budget(deadlines, team, env.entry)) && env.wait.Admitted?
  }

  /** Everything the other workers do to the limiter during the call. */
  ghost function Others(deadlines: map<string, Deadline>, team: string, env: Environment): seq<Limiter.Event> {
    (if Spent(Budget(deadlines, team, env.entry)) then [] else Limiter.OthersIn(env.wait)) + env.running
  }

  /** Everything others do to the enforcer during the call. */
  ghost function Steps(deadlines: map<string, Deadline>, team: string, env: Environment): seq<EnforcerEvent> {
    (if Spent(Budget(deadlines, team, env.entry)) then [] else env.waitingSteps) + env.runningSteps
  }

  /** The others' steps are possible where they happen, and none of them releases this worker's lease. */
  ghost predicate Foreseen(s: Limiter.State, me: Limiter.Owner, mine: Limiter.Lease, expired: bool, env: Environment) {
    if expired then Limiter.AllPossible(s, env.running) else
      && Limiter.Feasible(s, me, mine, env.wait)
      && var here := Limiter.After(s, Limiter.Script(me, mine, env.wait));
      && Limiter.AllPossible(here, env.running)
      && (env.wait.Admitted? ==> Limiter.Spares(here, env.running, mine))
  }

  /** The project ran out before the worker was let run. */
  ghost predicate Late(deadlines: map<string, Deadline>, team: string, teamTimeout: real, env: Environment) {
    || Spent(Budget(deadlines, team, env.entry)) || (!env.wait.Admitted? && env.waitTimesOut)
    || (Admitted(deadlines, team, env) &&
        Spent(Budget(TeamsAfter(deadlines, env.waitingSteps, teamTimeout), team, env.check)))
  }

  /** The limiter's books are those the others alone would have left. */
  ghost predicate NoTrace(before: Limiter.State, after: Limiter.State, others: seq<Limiter.Event>, max: nat) {
    && Limiter.AllPossible(before, others) && Limiter.Balanced(after, max)
    && Limiter.Books(after) == Limiter.Books(Limiter.After(before, others))
  }

  lemma NotAdmittedNoTrace(s: Limiter.State, me: Limiter.Owner, mine: Limiter.Lease, expired: bool, env: Environment,
                           max: nat)
    requires Limiter.Balanced(s, max) && Foreseen(s, me, mine, expired, env) && (expired || !env.wait.Admitted?)
    ensures var here := if expired then s else Limiter.After(s, Limiter.Script(me, mine, env.wait));
            NoTrace(s, Limiter.After(here, env.running),
                    (if expired then [] else Limiter.OthersIn(env.wait)) + env.running, max)
  {
    var others := if expired then [] else Limiter.OthersIn(env.wait);
    if !expired { Limiter.GivenUpLeavesNoTrace(s, me, mine, env.wait); }
    Limiter.AfterSplit(s, others, env.running);
    Limiter.PossibleJoin(s, others, env.running);
    Limiter.RunBalanced(s, others + env.running, max);
  }

  lemma AdmittedNoTrace(s: Limiter.State, me: Limiter.Owner, mine: Limiter.Lease, env: Environment, max: nat)
    requires Limiter.Balanced(s, max) && Foreseen(s, me, mine, false, env) && env.wait.Admitted?
    ensures var held := Limiter.After(Limiter.After(s, Limiter.Script(me, mine, env.wait)), env.running);
            var left := Limiter.Apply(held, Limiter.Release(me, Some(mine)));
            NoTrace(s, left, Limiter.OthersIn(env.wait) + env.running, max) && mine !in left.leases
  {
    Limiter.HolderLeavesNoTrace(s, me, mine, env.wait, env.running, me, max);
  }

  /** The worker is cancelled: a failed reaping is reported, and otherwise the call is stopped. */
  ghost predicate EndsStopped(r: Outcome, reap: Reap) {
    match reap
    case ReapFails => r == ReapFailure
    case Reaped => r == Stopped
    case ReapInterrupted => r == Stopped
  }

  /** The worker is cancelled on a timeout: that is reported, unless the reaping fails or is interrupted. */
  ghost predicate EndsAs(r: Outcome, timeout: Outcome, env: Environment) {
    match env.reap
    case Reaped => r == timeout
    case ReapFails => r == ReapFailure
    case ReapInterrupted => EndsStopped(r, env.again)
  }

  /**
   What a worker with a slot may return, from the budgets at the readings: the first ones see the
   deadlines `admitted`, the last one the deadlines `ended`.
   */
  ghost predicate Justified(r: Outcome, limit: Option<real>, cancelled: bool, admitted: map<string, Deadline>,
                            ended: map<string, Deadline>, team: string, taskTimeout: real, env: Environment)
  {
    var late, atBegin := Spent(Budget(admitted, team, env.check)), Budget(admitted, team, env.begin);
    var projectOver := atBegin.Some? && atBegin.value <= taskTimeout && Spent(Budget(ended, team, env.end));
    && (limit.None? <==> late)
    && (limit.Some? ==> limit.value <= taskTimeout && (atBegin.Some? ==> limit.value <= atBegin.value))
    && (limit.Some? ==> limit == atBegin || limit == Some(taskTimeout))
    && (r.Value? <==> !late && env.ending.Returns?)
    && (r.WorkerError? <==> !late && env.ending.Raises?)
    && (cancelled <==> late || !(env.ending.Returns? || env.ending.Raises?))
    && (late ==> EndsAs(r, ProjectTimeout, env))
    && (!late && (env.ending.TimesOut? || env.ending.OwnTimeout?) ==>
          EndsAs(r, if projectOver then ProjectTimeout else TaskTimeout, env))
    && (!late && env.ending.Interrupted? ==> EndsStopped(r, env.reap))
  }

  /** Everything between admission and the clean-up. */
  method Supervise(enforcer: TimeoutEnforcer, task: string, team: string, env: Environment)
    returns (r: Outcome, cancelled: bool, ghost limit: Option<real>)
    requires Clocked(env)
    modifies enforcer
    ensures enforcer.starts == StartsAfter(old(enforcer.starts)[task := env.check], env.runningSteps)
    ensures SameDeadlines(TeamsAfter(old(enforcer.deadlines), env.runningSteps, enforcer.teamTimeout),
                          enforcer.deadlines)
    ensures Justified(r, limit, cancelled, old(enforcer.deadlines),
                      TeamsAfter(old(enforcer.deadlines), env.runningSteps, enforcer.teamTimeout), team,
                      enforcer.taskTimeout, env)
  {
    limit := None;
    ghost var before := enforcer.deadlines;
    ghost var ended := TeamsAfter(enforcer.deadlines, env.runningSteps, enforcer.teamTimeout);
    enforcer.starts := enforcer.starts[task := env.check];
    var remaining := enforcer.Remaining(team, env.check);
    if Spent(remaining) {
      SameTeamsAfter(before, enforcer.deadlines, env.runningSteps, enforcer.teamTimeout);
      enforcer.Interleave(env.runningSteps);
      return Reaping(ProjectTimeout, env.reap, env.again), true, None;
    }
    SameBudget(before, enforcer.deadlines, team, env.begin);
    ghost var checked := enforcer.deadlines;
    remaining := enforcer.Remaining(team, env.begin);
    SameDeadlinesTrans(before, checked, enforcer.deadlines);
    SameTeamsAfter(before, enforcer.deadlines, env.runningSteps, enforcer.teamTimeout);
    var projectLimited := remaining.Some? && remaining.value <= enforcer.taskTimeout;
    limit := Some(if remaining.Some? then Least(enforcer.taskTimeout, remaining.value) else enforcer.taskTimeout);
    enforcer.Interleave(env.runningSteps);
    cancelled := true;
    if AsTimeout(env.ending) {
      ghost var seen := enforcer.deadlines;
      SameBudget(ended, seen, team, env.end);
      var current := enforcer.Remaining(team, env.end);
      SameDeadlinesTrans(ended, seen, enforcer.deadlines);
      r := Reaping(if projectLimited && Spent(current) then ProjectTimeout else TaskTimeout, env.reap, env.again);
    } else if env.ending.Interrupted? {
      r := Handled(env.reap);
    } else {
      r, cancelled := if env.ending.Returns? then Value else WorkerError, false;
    }
  }

  /** Timing the task for as long as it runs leaves the other start times to the others. */
  lemma StartAndFinish(starts: map<string, real>, task: string, at: real, events: seq<EnforcerEvent>)
    ensures StartsAfter(starts[task := at], events) - {task} == StartsAfter(starts, events) - {task}
  {
    assert starts[task := at] - {task} == starts - {task};
    StartsApart(starts[task := at], starts, events, task);
  }

  /** From waiting for the slot to giving it back. */
  method RunInSlot(enforcer: TimeoutEnforcer, limiter: Limiter.ConcurrencyLimiter, me: Limiter.Owner,
                   mine: Limiter.Lease, task: string, team: string, env: Environment)
    returns (r: Outcome, cancelled: bool, ghost limit: Option<real>)
    requires Clocked(env) && env.wait.Admitted?
    requires Limiter.Balanced(limiter.View(), limiter.maxConcurrent) && Foreseen(limiter.View(), me, mine, false, env)
    modifies enforcer, limiter
    ensures NoTrace(old(limiter.View()), limiter.View(), Limiter.OthersIn(env.wait) + env.running,
                    limiter.maxConcurrent)
    ensures mine !in limiter.leases
    ensures enforcer.starts == StartsAfter(old(enforcer.starts), env.waitingSteps + env.runningSteps) - {task}
    ensures SameDeadlines(TeamsAfter(old(enforcer.deadlines), env.waitingSteps + env.runningSteps,
                                     enforcer.teamTimeout),
                          enforcer.deadlines)
    ensures Justified(r, limit, cancelled, TeamsAfter(old(enforcer.deadlines), env.waitingSteps, enforcer.teamTimeout),
                      TeamsAfter(old(enforcer.deadlines), env.waitingSteps + env.runningSteps, enforcer.teamTimeout),
                      team,
                      enforcer.taskTimeout, env)
  {
    hide NoTrace, Limiter.Balanced, StartsAfter, TeamsAfter, Justified, SameDeadlines;
    AdmittedNoTrace(limiter.View(), me, mine, env, limiter.maxConcurrent);
    TeamsAfterBoth(enforcer.deadlines, env.waitingSteps, env.runningSteps, enforcer.teamTimeout);
    StartsAfterBoth(enforcer.starts, env.waitingSteps, env.runningSteps);
    var admitted := limiter.Acquire(me, mine, env.wait);
    enforcer.Interleave(env.waitingSteps);
    StartAndFinish(enforcer.starts, task, env.check, env.runningSteps);
    limiter.Interleave(env.running);
    r, cancelled, limit := Supervise(enforcer, task, team, env);
    enforcer.starts := enforcer.starts - {task};
    var released := limiter.Release(me, Some(mine));
  }

  lemma JustifiedBySame(r: Outcome, limit: Option<real>, cancelled: bool, a: map<string, Deadline>,
                        aEnded: map<string, Deadline>, b: map<string, Deadline>, bEnded: map<string, Deadline>,
                        team: string, taskTimeout: real, env: Environment)
    requires SameDeadlines(a, b) && SameDeadlines(aEnded, bEnded)
    requires Justified(r, limit, cancelled, b, bEnded, team, taskTimeout, env)
    ensures Justified(r, limit, cancelled, a, aEnded, team, taskTimeout, env)
  {
    SameBudget(a, b, team, env.check);
    SameBudget(a, b, team, env.begin);
    SameBudget(aEnded, bEnded, team, env.end);
  }

  /** Reading the deadline on entry makes no difference to the rest of the call. */
  lemma EntryReadIdle(first: map<string, Deadline>, second: map<string, Deadline>, ended: map<string, Deadline>,
                      steps: seq<EnforcerEvent>, r: Outcome, limit: Option<real>, cancelled: bool, team: string,
                      taskTimeout: real, teamTimeout: real, env: Environment)
    requires SameDeadlines(first, second) && SameDeadlines(TeamsAfter(second, steps, teamTimeout), ended)
    requires Justified(r, limit, cancelled, TeamsAfter(second, env.waitingSteps, teamTimeout),
                       TeamsAfter(second, steps, teamTimeout), team, taskTimeout, env)
    ensures SameDeadlines(TeamsAfter(first, steps, teamTimeout), ended)
    ensures Justified(r, limit, cancelled, TeamsAfter(first, env.waitingSteps, teamTimeout),
                      TeamsAfter(first, steps, teamTimeout), team, taskTimeout, env)
  {
    SameTeamsAfter(first, second, env.waitingSteps, teamTimeout);
    SameTeamsAfter(first, second, steps, teamTimeout);
    SameDeadlinesTrans(TeamsAfter(first, steps, teamTimeout), TeamsAfter(second, steps, teamTimeout), ended);
    JustifiedBySame(r, limit, cancelled, TeamsAfter(first, env.waitingSteps, teamTimeout),
                    TeamsAfter(first, steps, teamTimeout), TeamsAfter(second, env.waitingSteps, teamTimeout),
                    TeamsAfter(second, steps, teamTimeout), team, taskTimeout, env);
  }

  /**
   What the call leaves of the enforcer: the start times the others alone would have left, less this
   task's entry, which is a loss exactly when somebody else timed the same id; and their deadlines.
   */
  ghost predicate EnforcerLeft(starts: map<string, real>, deadlines: map<string, Deadline>, starts': map<string, real>,
                               deadlines': map<string, Deadline>, task: string, team: string, teamTimeout: real,
                               env: Environment)
  {
    var alone := StartsAfter(starts, Steps(deadlines, team, env));
    && starts' == (if Admitted(deadlines, team, env) then alone - {task} else alone)
    && (starts' == alone <==> !(Admitted(deadlines, team, env) && task in alone))
    && SameDeadlines(TeamsAfter(deadlines, Steps(deadlines, team, env), teamTimeout), deadlines')
  }

  /**
   What the call returns.  With a slot, the outcome and the worker's limit are justified by the budget at
   each reading.  Without one the worker never ran: it is cancelled, and only a timeout, a stop or a
   failed reaping is reported.
   */
  ghost predicate Returned(r: Outcome, cancelled: bool, limit: Option<real>, deadlines: map<string, Deadline>,
                           team: string, taskTimeout: real, teamTimeout: real, env: Environment)
  {
    && (Admitted(deadlines, team, env) ==>
          Justified(r, limit, cancelled, TeamsAfter(deadlines, env.waitingSteps, teamTimeout),
                    TeamsAfter(deadlines, Steps(deadlines, team, env), teamTimeout), team, taskTimeout, env))
    && (!Admitted(deadlines, team, env) ==>
          && cancelled && limit.None?
          && if Late(deadlines, team, teamTimeout, env) then EndsAs(r, ProjectTimeout, env)
             else EndsStopped(r, env.reap))
  }

  lemma AdmittedEnforcer(starts: map<string, real>, deadlines: map<string, Deadline>, starts': map<string, real>,
                         deadlines': map<string, Deadline>, task: string, team: string, teamTimeout: real,
                         env: Environment)
    requires Admitted(deadlines, team, env)
    requires starts' == StartsAfter(starts, env.waitingSteps + env.runningSteps) - {task}
    requires SameDeadlines(TeamsAfter(deadlines, env.waitingSteps + env.runningSteps, teamTimeout), deadlines')
    ensures EnforcerLeft(starts, deadlines, starts', deadlines', task, team, teamTimeout, env)
  {
    assert Steps(deadlines, team, env) == env.waitingSteps + env.runningSteps;
  }

  lemma TurnedAwayEnforcer(starts: map<string, real>, first: map<string, Deadline>, second: map<string, Deadline>,
                           starts': map<string, real>, deadlines': map<string, Deadline>, task: string, team: string,
                           teamTimeout: real, env: Environment)
    requires !Admitted(first, team, env) && SameDeadlines(first, second)
    requires starts' == StartsAfter(starts, Steps(first, team, env))
    requires deadlines' == TeamsAfter(second, Steps(first, team, env), teamTimeout)
    ensures EnforcerLeft(starts, first, starts', deadlines', task, team, teamTimeout, env)
  {
    SameTeamsAfter(first, second, Steps(first, team, env), teamTimeout);
  }

  /** A worker that never gets its slot, after the entry reading of deadlines that were `first`. */
  method TurnedAway(enforcer: TimeoutEnforcer, limiter: Limiter.ConcurrencyLimiter, me: Limiter.Owner,
                    mine: Limiter.Lease, task: string, team: string, expired: bool, env: Environment,
                    ghost first: map<string, Deadline>)
    requires Limiter.Balanced(limiter.View(), limiter.maxConcurrent) && Foreseen(limiter.View(), me, mine, expired, env)
    requires !Admitted(first, team, env) && SameDeadlines(first, enforcer.deadlines)
    requires expired == Spent(Budget(first, team, env.entry))
    modifies enforcer, limiter
    ensures NoTrace(old(limiter.View()), limiter.View(), Others(first, team, env), limiter.maxConcurrent)
    ensures EnforcerLeft(old(enforcer.starts), first, enforcer.starts, enforcer.deadlines, task, team,
                         enforcer.teamTimeout, env)
  {
    NotAdmittedNoTrace(limiter.View(), me, mine, expired, env, limiter.maxConcurrent);
    ghost var second, starts := enforcer.deadlines, enforcer.starts;
    if !expired {
      var admitted := limiter.Acquire(me, mine, env.wait);
    }
    limiter.Interleave(env.running);
    enforcer.Interleave((if expired then [] else env.waitingSteps) + env.runningSteps);
    TurnedAwayEnforcer(starts, first, second, enforcer.starts, enforcer.deadlines, task, team, enforcer.teamTimeout,
                       env);
  }

  lemma AdmittedReturned(r: Outcome, cancelled: bool, limit: Option<real>, deadlines: map<string, Deadline>,
                         team: string, taskTimeout: real, teamTimeout: real, env: Environment)
    requires Admitted(deadlines, team, env)
    requires Justified(r, limit, cancelled, TeamsAfter(deadlines, env.waitingSteps, teamTimeout),
                       TeamsAfter(deadlines, env.waitingSteps + env.runningSteps, teamTimeout), team, taskTimeout, env)
    ensures Returned(r, cancelled, limit, deadlines, team, taskTimeout, teamTimeout, env)
  {
    assert Steps(deadlines, team, env) == env.waitingSteps + env.runningSteps;
  }

  /** A worker with a slot, after the entry reading of deadlines that were `first`. */
  method RunAfterEntry(enforcer: TimeoutEnforcer, limiter: Limiter.ConcurrencyLimiter, me: Limiter.Owner,
                       mine: Limiter.Lease, task: string, team: string, env: Environment,
                       ghost first: map<string, Deadline>)
    returns (r: Outcome, cancelled: bool, ghost limit: Option<real>)
    requires Clocked(env) && Admitted(first, team, env) && SameDeadlines(first, enforcer.deadlines)
    requires Limiter.Balanced(limiter.View(), limiter.maxConcurrent) && Foreseen(limiter.View(), me, mine, false, env)
    modifies enforcer, limiter
    ensures NoTrace(old(limiter.View()), limiter.View(), Others(first, team, env), limiter.maxConcurrent)
    ensures mine !in limiter.leases
    ensures EnforcerLeft(old(enforcer.starts), first, enforcer.starts, enforcer.deadlines, task, team,
                         enforcer.teamTimeout, env)
    ensures Returned(r, cancelled, limit, first, team, enforcer.taskTimeout, enforcer.teamTimeout, env)
  {
    ghost var second, starts := enforcer.deadlines, enforcer.starts;
    r, cancelled, limit := RunInSlot(enforcer, limiter, me, mine, task, team, env);
    EntryReadIdle(first, second, enforcer.deadlines, env.waitingSteps + env.runningSteps, r, limit, cancelled, team,
                  enforcer.taskTimeout, enforcer.teamTimeout, env);
    AdmittedEnforcer(starts, first, enforcer.starts, enforcer.deadlines, task, team, enforcer.teamTimeout, env);
    AdmittedReturned(r, cancelled, limit, first, team, enforcer.taskTimeout, enforcer.teamTimeout, env);
  }

  /**
   `enforce_worker_lifecycle`, with others stepping the limiter and the enforcer at any await.  `waited`
   bounds the wait for a slot, `limit` the worker itself, and `cancelled` says whether the canceller was called.
   */
  method EnforceWorkerLifecycle(enforcer: TimeoutEnforcer, limiter: Limiter.ConcurrencyLimiter, me: Limiter.Owner,
                                mine: Limiter.Lease, task: string, team: string, env: Environment)
    returns (r: Outcome, cancelled: bool, ghost waited: Option<real>, ghost limit: Option<real>)
    requires Clocked(env) && (!env.wait.Admitted? && env.waitTimesOut ==> team in enforcer.deadlines)
    requires Limiter.Balanced(limiter.View(), limiter.maxConcurrent)
    requires Foreseen(limiter.View(), me, mine, Spent(Budget(enforcer.deadlines, team, env.entry)), env)
    modifies enforcer, limiter
    // on every exit the limiter is what the other workers alone would have made of it
    ensures NoTrace(old(limiter.View()), limiter.View(), Others(old(enforcer.deadlines), team, env),
                    limiter.maxConcurrent)
    ensures Admitted(old(enforcer.deadlines), team, env) ==> mine !in limiter.leases
    // and so is the enforcer, apart from this task's entry
    ensures EnforcerLeft(old(enforcer.starts), old(enforcer.deadlines), enforcer.starts, enforcer.deadlines, task, team,
                         enforcer.teamTimeout, env)
    // no wait may outlive the project budget, and the outcome is justified by it
    ensures waited == if Spent(Budget(old(enforcer.deadlines), team, env.entry)) then None
                      else Budget(old(enforcer.deadlines), team, env.entry)
    ensures Returned(r, cancelled, limit, old(enforcer.deadlines), team, enforcer.taskTimeout, enforcer.teamTimeout,
                     env)
  {
    hide NoTrace, EnforcerLeft, Limiter.Balanced, StartsAfter, TeamsAfter, Justified, Foreseen;
    waited, limit, cancelled := None, None, true;
    ghost var first := enforcer.deadlines;
    var remaining := enforcer.Remaining(team, env.entry);
    if Spent(remaining) {
      TurnedAway(enforcer, limiter, me, mine, task, team, true, env, first);
      return Reaping(ProjectTimeout, env.reap, env.again), true, None, None;
    }
    waited := remaining;
    if !env.wait.Admitted? {
      TurnedAway(enforcer, limiter, me, mine, task, team, false, env, first);
      r := if env.waitTimesOut then Reaping(ProjectTimeout, env.reap, env.again) else Handled(env.reap);
      return;
    }
    r, cancelled, limit := RunAfterEntry(enforcer, limiter, me, mine, task, team, env, first);
  }

  // ---------------------------------------------------------------- turns

  datatype Turn = Model | Tool | Unknown

  datatype Consumed = Counted | BadKind | DeadlinePassed | LimitReached

  /** `WorkerTurnBudget`.  The test and the count happen without an await between them. */
  class WorkerTurnBudget {
    const maxTurns: nat
    var modelTurns: nat
    var toolCalls: nat

    ghost predicate Valid()
      reads this
    {
      modelTurns + toolCalls <= maxTurns
    }

    constructor (maxTurns: int)
      ensures Valid() && modelTurns == 0 && toolCalls == 0 && this.maxTurns == if maxTurns < 0 then 0 else maxTurns
    {
      this.maxTurns := if maxTurns < 0 then 0 else maxTurns;
      modelTurns, toolCalls := 0, 0;
    }

    /** `consume`: an expired project is reported before a spent budget. */
    method Consume(kind: Turn, projectExpired: bool) returns (r: Consumed)
      requires Valid()
      modifies this
      ensures Valid()
      ensures r == if kind.Unknown? then BadKind else if projectExpired then DeadlinePassed
                   else if old(modelTurns + toolCalls) == maxTurns then LimitReached else Counted
      ensures modelTurns == old(modelTurns) + (if r.Counted? && kind.Model? then 1 else 0)
      ensures toolCalls == old(toolCalls) + (if r.Counted? && kind.Tool? then 1 else 0)
    {
      if kind.Unknown? { return BadKind; }
      if projectExpired { return DeadlinePassed; }
      if modelTurns + toolCalls >= maxTurns { return LimitReached; }
      if kind.Model? { modelTurns := modelTurns + 1; } else { toolCalls := toolCalls + 1; }
      r := Counted;
    }
  }
}
