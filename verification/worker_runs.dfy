/** What every interleaving of runner, `start`, graceful and forced `stop` preserves. */
module WorkerRuns {
  import opened Wrappers
  import opened WorkerSpec

  /** At most one runner is unfinished, and it is the one `_future` holds. */
  ghost predicate OneRunner(s: State) {
    && (s.future.Some? <==> s.tasks != [])
    && (s.future.Some? ==> s.future.value == |s.tasks| - 1)
    && (forall t :: 0 <= t < |s.tasks| - 1 ==> s.tasks[t].at == Ended)
  }

  /** The point the unfinished runner is at, if there is one. */
  ghost function Now(s: State): Point {
    if s.tasks == [] then Ended else s.tasks[|s.tasks| - 1].at
  }

  /** `_is_sleep` is true only while no runner is inside `work`, and a graceful `stop` has
      requested cancellation only of a runner outside `work`. */
  ghost predicate SleepIsTrue(s: State) {
    && (s.isSleep == Some(true) ==> !InWork(Now(s)))
    && (forall t :: 0 <= t < |s.tasks| && s.tasks[t].graceful ==> !InWork(s.tasks[t].at))
  }

  ghost function If(b: bool): nat {
    if b then 1 else 0
  }

  /** Where every input, every run and every result went, the runner being at a point. */
  ghost predicate Balanced(c: Config, y: Tally, now: Point) {
    && y.error == y.failedInput + y.failedRun + y.failedOutput
    && y.run == y.done + y.failedRun + y.cancelledRun + If(now == Running)
    && (if c.input then y.taken == y.run else y.taken == 0 && now != Input)
    && (if c.output then y.done == y.handed + y.failedOutput + y.cancelledOutput + If(now == Output)
        else y.handed == 0 && now != Output)
  }

  ghost predicate Accounted(s: State) {
    Balanced(s.config, s.tally, Now(s))
  }

  ghost predicate WorkerInv(s: State) {
    OneRunner(s) && SleepIsTrue(s) && Accounted(s)
  }

  // ---------- The runner's own steps ----------

  /** What a step of the last task may change: the task itself, `_is_sleep` and the tally. */
  ghost predicate StepOf(s: State, u: State) {
    && s.tasks != [] && |u.tasks| == |s.tasks|
    && u.tasks[..|s.tasks| - 1] == s.tasks[..|s.tasks| - 1]
    && !u.tasks[|s.tasks| - 1].graceful
    && u.future == s.future && u.config == s.config
    && (u.isSleep == Some(true) ==> !InWork(Now(u)))
    && Accounted(u)
  }

  lemma GoToSteps(s: State, t: nat, p: Point)
    requires s.tasks != [] && t == |s.tasks| - 1
    requires s.isSleep == Some(true) ==> !InWork(p)
    requires Balanced(s.config, s.tally, p)
    ensures StepOf(s, GoTo(s, t, p))
  {
  }

  lemma NextTurnSteps(s: State, t: nat)
    requires s.tasks != [] && t == |s.tasks| - 1 && Balanced(s.config, s.tally, Pause)
    ensures StepOf(s, NextTurn(s, t)) && StepOf(s, BeginWork(s, t))
  {
    var awake := s.(isSleep := Some(false));
    if s.config.input {
      GoToSteps(awake, t, Input);
    } else {
      GoToSteps(awake.(tally := s.tally.(run := s.tally.run + 1)), t, Running);
    }
    GoToSteps(s, t, Cron);
  }

  lemma EndWorkSteps(s: State, t: nat)
    requires s.tasks != [] && t == |s.tasks| - 1 && Balanced(s.config, s.tally, Pause)
    ensures StepOf(s, EndWork(s, t))
  {
    var asleep := s.(isSleep := Some(true));
    GoToSteps(asleep, t, Ended);
    GoToSteps(asleep, t, Pause);
    NextTurnSteps(asleep, t);
  }

  lemma TakeSteps(s: State, t: nat)
    requires s.tasks != [] && t == |s.tasks| - 1 && Now(s) == Input && Accounted(s) && s.isSleep != Some(true)
    ensures StepOf(s, Proceed(s, t))
  {
    var y := s.tally;
    GoToSteps(s.(tally := y.(taken := y.taken + 1, run := y.run + 1)), t, Running);
  }

  lemma DoneSteps(s: State, t: nat)
    requires s.tasks != [] && t == |s.tasks| - 1 && Now(s) == Running && Accounted(s) && s.isSleep != Some(true)
    ensures StepOf(s, Proceed(s, t))
  {
    var counted := s.(tally := s.tally.(done := s.tally.done + 1));
    if s.config.output { GoToSteps(counted, t, Output); } else { EndWorkSteps(counted, t); }
  }

  lemma HandSteps(s: State, t: nat)
    requires s.tasks != [] && t == |s.tasks| - 1 && Now(s) == Output && Accounted(s)
    ensures StepOf(s, Proceed(s, t))
  {
    EndWorkSteps(s.(tally := s.tally.(handed := s.tally.handed + 1)), t);
  }

  lemma WakeSteps(s: State, t: nat)
    requires s.tasks != [] && t == |s.tasks| - 1 && !InWork(Now(s)) && Accounted(s)
    ensures StepOf(s, Wake(s, t))
  {
    var begun := s.(isSleep := Some(true));
    GoToSteps(begun, t, SleepStart);
    NextTurnSteps(begun, t);
    NextTurnSteps(s, t);
  }

  lemma CancelSteps(s: State, t: nat)
    requires s.tasks != [] && t == |s.tasks| - 1 && Accounted(s)
    ensures StepOf(s, GoTo(s.(tally := CountCancellation(s.tally, s.tasks[t].at)), t, Ended))
  {
    GoToSteps(s.(tally := CountCancellation(s.tally, s.tasks[t].at)), t, Ended);
  }

  lemma FailSteps(s: State, t: nat)
    requires s.tasks != [] && t == |s.tasks| - 1 && InWork(Now(s)) && Accounted(s)
    ensures StepOf(s, EndWork(s.(tally := CountFailure(s.tally, s.tasks[t].at)), t))
  {
    EndWorkSteps(s.(tally := CountFailure(s.tally, s.tasks[t].at)), t);
  }

  lemma SurfaceAccounts(s: State, t: nat)
    requires t < |s.tasks| && Accounted(s)
    ensures Accounted(Surface(s, t))
  {
  }

  lemma ResumeSteps(s: State, t: nat, how: Outcome)
    requires WorkerInv(s) && Enabled(s, TaskResumes(t, how))
    ensures StepOf(s, Resume(s, t, how))
  {
    var s1 := Surface(s, t);
    SurfaceAccounts(s, t);
    if how == Cancels {
      CancelSteps(s1, t);
    } else if !InWork(s.tasks[t].at) {
      WakeSteps(s1, t);
    } else if how == Raises {
      FailSteps(s1, t);
    } else if s.tasks[t].at == Input {
      TakeSteps(s1, t);
    } else if s.tasks[t].at == Running {
      DoneSteps(s1, t);
    } else {
      HandSteps(s1, t);
    }
  }

  lemma StepOfKeepsInv(s: State, u: State)
    requires OneRunner(s) && SleepIsTrue(s) && StepOf(s, u)
    ensures WorkerInv(u)
  {
    forall t | 0 <= t < |u.tasks| - 1 ensures u.tasks[t] == s.tasks[t] {
      assert u.tasks[..|s.tasks| - 1][t] == s.tasks[..|s.tasks| - 1][t];
    }
  }

  // ---------- Every step, every run ----------

  lemma StepKeepsInv(s: State, e: Event)
    requires WorkerInv(s) && Enabled(s, e)
    ensures WorkerInv(Step(s, e))
  {
    match e
    case TaskResumes(t, how) =>
      ResumeSteps(s, t, how);
      StepOfKeepsInv(s, Resume(s, t, how));
    case _ =>
  }

  lemma {:induction false} RunKeepsInv(s: State, es: seq<Event>)
    requires WorkerInv(s) && Feasible(s, es)
    ensures WorkerInv(Run(s, es))
    decreases |es|
  {
    if es != [] {
      StepKeepsInv(s, es[0]);
      RunKeepsInv(Step(s, es[0]), es[1..]);
    }
  }

  /** Every state a worker can get into. */
  ghost predicate Reachable(s: State) {
    exists config, persist, es ::
      Feasible(Initial(config, persist), es) && s == Run(Initial(config, persist), es)
  }

  lemma ReachableInv(s: State)
    requires Reachable(s)
    ensures WorkerInv(s)
  {
    var config, persist, es :| Feasible(Initial(config, persist), es) && s == Run(Initial(config, persist), es);
    RunKeepsInv(Initial(config, persist), es);
  }

  /** However `start` and `stop` interleave, two runners are never unfinished at once. */
  lemma AtMostOneRunner(s: State, t: nat, u: nat)
    requires Reachable(s) && t < |s.tasks| && u < |s.tasks|
    requires s.tasks[t].at != Ended && s.tasks[u].at != Ended
    ensures t == u && s.future == Some(t)
  {
    ReachableInv(s);
  }

  /** `_is_sleep` never lies: while it is true, nobody is inside `work`. */
  lemma SleepingMeansIdle(s: State, t: nat)
    requires Reachable(s) && s.isSleep == Some(true) && t < |s.tasks|
    ensures !InWork(s.tasks[t].at)
  {
    ReachableInv(s);
  }

  /** A graceful `stop` cancels only outside `work`, and what it cancels never gets back in:
      the next thing that happens to that runner is that it ends. */
  lemma GracefulStopSparesWork(s: State, t: nat, how: Outcome)
    requires Reachable(s) && t < |s.tasks| && s.tasks[t].graceful && Enabled(s, TaskResumes(t, how))
    ensures !InWork(s.tasks[t].at)
    ensures Step(s, TaskResumes(t, how)).tasks[t].at == Ended
    ensures Step(s, TaskResumes(t, how)).tally == s.tally
  {
    ReachableInv(s);
  }

  /** The bookkeeping of `counter`. */
  lemma CountersAddUp(s: State)
    requires Reachable(s)
    ensures s.tally.done <= s.tally.run <= s.tally.done + s.tally.error + s.tally.cancelledRun + 1
    ensures s.config.input ==> s.tally.run == s.tally.taken
    ensures s.tally.handed <= s.tally.done
    ensures !s.config.output ==> s.tally.handed == 0
  {
    ReachableInv(s);
  }

  // ---------- Runs without a forced stop ----------

  ghost predicate Unforced(s: State) {
    forall t :: 0 <= t < |s.tasks| ==> !s.tasks[t].forced
  }

  /** No cancellation that was requested has hit `work`, and none is about to. */
  ghost predicate Spared(s: State) {
    && s.tally.cut == 0
    && forall t :: 0 <= t < |s.tasks| && InWork(s.tasks[t].at) ==> !Requested(s.tasks[t])
  }

  ghost predicate Uncut(s: State) {
    Unforced(s) && Spared(s)
  }

  /** A `stop` is cancelled while the runner it waits for is inside `work`. */
  ghost predicate HitsWork(s: State, e: Event) {
    && e.CancelStop? && e.index < |s.stopping| && s.stopping[e.index] < |s.tasks|
    && InWork(s.tasks[s.stopping[e.index]].at)
  }

  ghost predicate CancelsAtWork(s: State, es: seq<Event>)
    requires Feasible(s, es)
    decreases |es|
  {
    es != [] && (HitsWork(s, es[0]) || CancelsAtWork(Step(s, es[0]), es[1..]))
  }

  /** The task has moved on, no request is left on it, and nothing was cut by that. */
  ghost predicate Cleared(s: State, u: State, t: nat) {
    && t < |s.tasks| && |u.tasks| == |s.tasks| && u.tally.cut == s.tally.cut
    && (forall i :: 0 <= i < |s.tasks| && i != t ==> u.tasks[i] == s.tasks[i])
    && !Requested(u.tasks[t]) && !u.tasks[t].forced
  }

  lemma NextTurnClears(s: State, t: nat)
    requires t < |s.tasks|
    ensures Cleared(s, NextTurn(s, t), t) && Cleared(s, BeginWork(s, t), t)
  {
  }

  lemma EndWorkClears(s: State, t: nat)
    requires t < |s.tasks|
    ensures Cleared(s, EndWork(s, t), t)
  {
    hide NextTurn;
    NextTurnClears(s.(isSleep := Some(true)), t);
  }

  lemma ProceedClears(s: State, t: nat)
    requires t < |s.tasks| && InWork(s.tasks[t].at)
    ensures Cleared(s, Proceed(s, t), t)
  {
    hide EndWork;
    var y := s.tally;
    EndWorkClears(s.(tally := y.(done := y.done + 1)), t);
    EndWorkClears(s.(tally := y.(handed := y.handed + 1)), t);
  }

  lemma WakeClears(s: State, t: nat)
    requires t < |s.tasks|
    ensures Cleared(s, Wake(s, t), t)
  {
    hide NextTurn, BeginWork;
    NextTurnClears(s, t);
    NextTurnClears(s.(isSleep := Some(true)), t);
  }

  /** A task that goes on has met every cancellation requested so far. */
  lemma ResumeClears(s: State, t: nat, how: Outcome)
    requires Enabled(s, TaskResumes(t, how))
    ensures var u, task := Resume(s, t, how), s.tasks[t];
            && Cleared(Surface(s, t), u, t)
            && u.tally.cut == s.tally.cut + If(Requested(task) && InWork(task.at))
  {
    hide EndWork, Proceed, Wake;
    var s1 := Surface(s, t);
    if how == Cancels {
    } else if !InWork(s.tasks[t].at) {
      WakeClears(s1, t);
    } else if how == Raises {
      EndWorkClears(s1.(tally := CountFailure(s1.tally, s.tasks[t].at)), t);
    } else {
      ProceedClears(s1, t);
    }
  }

  lemma ResumeSpares(s: State, t: nat, how: Outcome)
    requires WorkerInv(s) && Unforced(s) && Enabled(s, TaskResumes(t, how))
    ensures Unforced(Resume(s, t, how)) && (Spared(Resume(s, t, how)) <==> Spared(s))
  {
    hide Resume, Accounted, SleepIsTrue, Requested;
    ResumeClears(s, t, how);
  }

  lemma OthersSpare(s: State, e: Event)
    requires WorkerInv(s) && Unforced(s) && Enabled(s, e) && e != CallStop(true) && !e.TaskResumes?
    ensures Unforced(Step(s, e)) && (Spared(Step(s, e)) <==> Spared(s) && !HitsWork(s, e))
  {
    hide Accounted;
    var u := Step(s, e);
    if e.CancelStop? {
      var t := s.stopping[e.index];
      if HitsWork(s, e) { assert InWork(u.tasks[t].at) && Requested(u.tasks[t]); }
    }
    forall t | 0 <= t < |s.tasks| && InWork(s.tasks[t].at) && Requested(s.tasks[t])
      ensures InWork(u.tasks[t].at) && Requested(u.tasks[t])
    {
    }
  }

  lemma {:induction false} RunSpares(s: State, es: seq<Event>)
    requires WorkerInv(s) && Unforced(s) && Feasible(s, es) && CallStop(true) !in es
    ensures Unforced(Run(s, es)) && (Spared(Run(s, es)) <==> Spared(s) && !CancelsAtWork(s, es))
    decreases |es|
  {
    if es != [] {
      assert es[0] in es && forall e :: e in es[1..] ==> e in es;
      StepKeepsInv(s, es[0]);
      if es[0].TaskResumes? { ResumeSpares(s, es[0].task, es[0].how); } else { OthersSpare(s, es[0]); }
      RunSpares(Step(s, es[0]), es[1..]);
    }
  }

  /** Graceful stops spare `work` over a run exactly if no suspended `stop` is cancelled while
      its runner is inside `work`. */
  lemma GracefulRunsAreUncut(s: State, es: seq<Event>)
    requires WorkerInv(s) && Uncut(s) && Feasible(s, es) && CallStop(true) !in es
    ensures Uncut(Run(s, es)) <==> !CancelsAtWork(s, es)
  {
    RunSpares(s, es);
  }

  /** A graceful `stop` under a time limit: start, run, stop(force=False), and the `stop` is
      cancelled. */
  function StopInATimeLimit(): seq<Event> {
    [CallStart, TaskResumes(0, Returns), CallStop(false), CancelStop(0), TaskResumes(0, Cancels)]
  }

  /** It cuts `work`. */
  lemma CancelledStopCuts()
    ensures var s := Initial(Config(false, false, false, false, false), true);
            Feasible(s, StopInATimeLimit()) && Run(s, StopInATimeLimit()).tally.cut == 1
  {
    var s0 := Initial(Config(false, false, false, false, false), true);
    var s1 := Start(s0);
    var s2 := Resume(s1, 0, Returns);
    var s3 := Stop(s2, false);
    var s4 := RelayCancel(s3, 0);
    assert s1.tasks == [Task(Created, false, false, false)];
    assert s2.tasks == [Task(Running, false, false, false)] && s2.tally.cut == 0 && s2.isSleep == Some(false);
    assert s3.tasks == s2.tasks && s3.stopping == [0];
    assert s4.tasks == [Task(Running, false, false, true)];
    hide Run, Feasible;
    RunsOn(Resume(s4, 0, Cancels), []);
    OneMore(s4, TaskResumes(0, Cancels), []);
    OneMore(s3, CancelStop(0), [TaskResumes(0, Cancels)]);
    OneMore(s2, CallStop(false), [CancelStop(0), TaskResumes(0, Cancels)]);
    OneMore(s1, TaskResumes(0, Returns), [CallStop(false), CancelStop(0), TaskResumes(0, Cancels)]);
    OneMore(s0, CallStart, [TaskResumes(0, Returns), CallStop(false), CancelStop(0), TaskResumes(0, Cancels)]);
  }

  lemma RunsOn(s: State, es: seq<Event>)
    requires es == []
    ensures Feasible(s, es) && Run(s, es) == s
  {
  }

  lemma OneMore(s: State, e: Event, es: seq<Event>)
    requires Enabled(s, e) && Feasible(Step(s, e), es)
    ensures Feasible(s, [e] + es) && Run(s, [e] + es) == Run(Step(s, e), es)
  {
    assert ([e] + es)[1..] == es;
  }

  /** The operations inside `work` neither fail nor cancel themselves. */
  ghost predicate Healthy(s: State, es: seq<Event>)
    requires Feasible(s, es)
    decreases |es|
  {
    es == [] ||
    ((es[0].TaskResumes? && InWork(s.tasks[es[0].task].at) && !Requested(s.tasks[es[0].task]) ==>
        es[0].how == Returns)
     && Healthy(Step(s, es[0]), es[1..]))
  }

  ghost predicate NothingLost(y: Tally) {
    y.failedInput + y.failedRun + y.failedOutput + y.cancelledRun + y.cancelledOutput == 0
  }

  lemma HealthyStepLosesNothing(s: State, t: nat, how: Outcome)
    requires WorkerInv(s) && Uncut(s) && NothingLost(s.tally) && Enabled(s, TaskResumes(t, how))
    requires InWork(s.tasks[t].at) ==> how == Returns
    ensures NothingLost(Resume(s, t, how).tally)
  {
    if how == Cancels {
    } else if !InWork(s.tasks[t].at) {
    } else {
    }
  }

  lemma {:induction false} HealthyRunsLoseNothing(s: State, es: seq<Event>)
    requires WorkerInv(s) && Uncut(s) && NothingLost(s.tally) && Feasible(s, es) && Healthy(s, es)
    requires CallStop(true) !in es && !CancelsAtWork(s, es)
    ensures NothingLost(Run(s, es).tally)
    decreases |es|
  {
    if es != [] {
      assert es[0] in es && forall e :: e in es[1..] ==> e in es;
      StepKeepsInv(s, es[0]);
      if es[0].TaskResumes? { ResumeSpares(s, es[0].task, es[0].how); } else { OthersSpare(s, es[0]); }
      if es[0].TaskResumes? {
        HealthyStepLosesNothing(s, es[0].task, es[0].how);
      }
      HealthyRunsLoseNothing(Step(s, es[0]), es[1..]);
    }
  }

  lemma {:induction false} RunKeepsConfig(s: State, es: seq<Event>)
    requires WorkerInv(s) && Feasible(s, es)
    ensures Run(s, es).config == s.config
    decreases |es|
  {
    if es != [] {
      StepKeepsInv(s, es[0]);
      if es[0].TaskResumes? { ResumeSteps(s, es[0].task, es[0].how); }
      RunKeepsConfig(Step(s, es[0]), es[1..]);
    }
  }

  lemma NothingLostMeansHanded(s: State)
    requires Accounted(s) && NothingLost(s.tally) && s.config.input && s.config.output
    ensures s.tally.taken == s.tally.handed + If(Now(s) == Running) + If(Now(s) == Output)
  {
  }

  lemma NewWorkerLostNothing(config: Config, persist: bool)
    ensures var s := Initial(config, persist);
            WorkerInv(s) && Uncut(s) && NothingLost(s.tally) && s.config == config
  {
  }

  /** Graceful stops lose no work: from a new worker, or wherever nothing was lost so far,
      over any run with any number of them, restarts included, in which no operation fails by
      itself and no `stop` is cancelled while its runner works, every input taken has been
      processed and handed over, except the one still in progress. */
  lemma GracefulStopsLoseNothing(s: State, es: seq<Event>)
    requires WorkerInv(s) && Uncut(s) && NothingLost(s.tally) && s.config.input && s.config.output
    requires Feasible(s, es) && Healthy(s, es) && CallStop(true) !in es && !CancelsAtWork(s, es)
    ensures var u := Run(s, es);
            u.tally.taken == u.tally.handed + If(Now(u) == Running) + If(Now(u) == Output)
  {
    RunKeepsInv(s, es);
    HealthyRunsLoseNothing(s, es);
    RunKeepsConfig(s, es);
    NothingLostMeansHanded(Run(s, es));
  }

  /** In particular from a new worker on. */
  lemma NewWorkerLosesNothing(config: Config, persist: bool, es: seq<Event>)
    requires config.input && config.output
    requires Feasible(Initial(config, persist), es) && Healthy(Initial(config, persist), es)
    requires CallStop(true) !in es && !CancelsAtWork(Initial(config, persist), es)
    ensures var u := Run(Initial(config, persist), es);
            u.tally.taken == u.tally.handed + If(Now(u) == Running) + If(Now(u) == Output)
  {
    hide Initial, WorkerInv, Uncut, NothingLost, Run, Feasible, Healthy, CancelsAtWork, Now;
    NewWorkerLostNothing(config, persist);
    GracefulStopsLoseNothing(Initial(config, persist), es);
  }

  // ---------- Winding down ----------

  /** Runs that a runner at a point may still begin once `_persist` is off. */
  ghost function Left(p: Point): nat {
    If(p != Running && p != Output && p != Ended)
  }

  lemma StepWindsDown(s: State, e: Event)
    requires WorkerInv(s) && !s.persist && Enabled(s, e) && e != CallStart
    ensures var u := Step(s, e);
            !u.persist && u.tally.run + Left(Now(u)) <= s.tally.run + Left(Now(s))
  {
    hide Accounted;
    if e.TaskResumes? {
      if e.how == Cancels {
      } else if !InWork(s.tasks[e.task].at) {
      } else if e.how == Raises {
      } else {
      }
    }
  }

  lemma {:induction false} RunWindsDown(s: State, es: seq<Event>)
    requires WorkerInv(s) && !s.persist && Feasible(s, es) && CallStart !in es
    ensures var u := Run(s, es);
            !u.persist && u.tally.run + Left(Now(u)) <= s.tally.run + Left(Now(s))
    decreases |es|
  {
    if es != [] {
      assert es[0] in es && forall e :: e in es[1..] ==> e in es;
      StepKeepsInv(s, es[0]);
      StepWindsDown(s, es[0]);
      RunWindsDown(Step(s, es[0]), es[1..]);
    }
  }

  /** A graceful `stop` that finds the runner at work lets it finish and no more: until the
      next `start`, no second run begins, and none at all if one is under way. */
  lemma GracefulStopDrains(s: State, es: seq<Event>)
    requires Reachable(s) && IsRunning(s) && s.isSleep != Some(true)
    requires Feasible(Stop(s, false), es) && CallStart !in es
    ensures Run(Stop(s, false), es).tally.run <= s.tally.run + Left(Now(s)) <= s.tally.run + 1
  {
    ReachableInv(s);
    StepKeepsInv(s, CallStop(false));
    RunWindsDown(Stop(s, false), es);
  }
}
