/** What `start` and `stop` do to the runner they find, where a runner goes from each of its
    awaits, and what it counts on the way. */
module WorkerStops {
  import opened Wrappers
  import opened WorkerSpec
  import opened WorkerRuns

  ghost predicate At(s: State, t: nat, p: Point) {
    t < |s.tasks| && s.tasks[t].at == p
  }

  // ---------- The round of a runner ----------

  /** Where `work` first waits. */
  ghost function Entry(c: Config): Point {
    if c.input then Input else Running
  }

  /** Where a turn of the loop first waits. */
  ghost function Turn(c: Config): Point {
    if c.crontab then Cron else Entry(c)
  }

  /** Where a runner waits next when `work` is over. */
  ghost function Over(c: Config, persist: bool): Point {
    if persist then (if c.sleep then Pause else Turn(c)) else Ended
  }

  /** Where a runner waits next. */
  ghost function NextPoint(c: Config, persist: bool, p: Point, how: Outcome): Point {
    match how
    case Cancels => Ended
    case Raises => Over(c, persist)
    case Returns =>
      match p
      case Created => if c.sleepStart then SleepStart else Turn(c)
      case SleepStart => Turn(c)
      case Cron => Entry(c)
      case Input => Running
      case Running => if c.output then Output else Over(c, persist)
      case Output => Over(c, persist)
      case Pause => Turn(c)
      case Ended => Ended
  }

  /** What `_is_sleep` says after a step from one point to another. */
  ghost function Asleep(was: Option<bool>, p: Point, q: Point, how: Outcome): Option<bool> {
    if how == Cancels || (how == Returns && (p == Input || q == Output)) then was
    else if InWork(q) then Some(false)
    else if InWork(p) || p == Created then Some(true)
    else was
  }

  lemma TurnFollows(s: State, t: nat)
    requires t < |s.tasks|
    ensures At(BeginWork(s, t), t, Entry(s.config)) && At(NextTurn(s, t), t, Turn(s.config))
    ensures BeginWork(s, t).isSleep == Some(false)
    ensures NextTurn(s, t).isSleep == if s.config.crontab then s.isSleep else Some(false)
  {
  }

  lemma OverFollows(s: State, t: nat)
    requires t < |s.tasks|
    ensures At(EndWork(s, t), t, Over(s.config, s.persist))
    ensures EndWork(s, t).isSleep == Some(!InWork(Over(s.config, s.persist)))
  {
    hide NextTurn;
    TurnFollows(s.(isSleep := Some(true)), t);
  }

  lemma WakeFollows(s: State, t: nat)
    requires t < |s.tasks| && !InWork(s.tasks[t].at) && s.tasks[t].at != Ended
    ensures var p := s.tasks[t].at;
            var q := NextPoint(s.config, s.persist, p, Returns);
            At(Wake(s, t), t, q) && Wake(s, t).isSleep == Asleep(s.isSleep, p, q, Returns)
  {
    hide NextTurn, BeginWork;
    TurnFollows(s.(isSleep := Some(true)), t);
    TurnFollows(s, t);
  }

  lemma ProceedFollows(s: State, t: nat)
    requires t < |s.tasks| && InWork(s.tasks[t].at)
    ensures var p := s.tasks[t].at;
            var q := NextPoint(s.config, s.persist, p, Returns);
            At(Proceed(s, t), t, q) && Proceed(s, t).isSleep == Asleep(s.isSleep, p, q, Returns)
  {
    hide EndWork;
    var y := s.tally;
    OverFollows(s.(tally := y.(done := y.done + 1)), t);
    OverFollows(s.(tally := y.(handed := y.handed + 1)), t);
  }

  /** Where a runner goes: round the loop until it is cancelled or, `_persist` being off, until
      `work` is over, however that ends. */
  lemma RunnerFollows(s: State, t: nat, how: Outcome)
    requires Enabled(s, TaskResumes(t, how))
    ensures var u, p := Step(s, TaskResumes(t, how)), s.tasks[t].at;
            var q := NextPoint(s.config, s.persist, p, how);
            && u.tasks == s.tasks[t := Task(q, false, false, false)]
            && u.isSleep == Asleep(s.isSleep, p, q, how)
            && u.persist == s.persist && u.future == s.future && u.stopping == s.stopping
  {
    hide EndWork, Proceed, Wake;
    var s1, p := Surface(s, t), s.tasks[t].at;
    if how == Cancels {
    } else if !InWork(p) {
      WakeFollows(s1, t);
      WakeOnly(s1, t);
    } else if how == Raises {
      OverFollows(s1.(tally := CountFailure(s1.tally, p)), t);
      EndWorkOnly(s1.(tally := CountFailure(s1.tally, p)), t);
    } else {
      ProceedFollows(s1, t);
      ProceedOnly(s1, t);
    }
  }

  /** A step of a runner touches its own task and no other, and leaves the rest alone. */
  ghost predicate Only(s: State, u: State, t: nat) {
    && t < |s.tasks| && |u.tasks| == |s.tasks|
    && u.tasks == s.tasks[t := Task(u.tasks[t].at, false, false, false)]
    && u.persist == s.persist && u.future == s.future && u.stopping == s.stopping
  }

  lemma NextTurnOnly(s: State, t: nat)
    requires t < |s.tasks|
    ensures Only(s, NextTurn(s, t), t) && Only(s, BeginWork(s, t), t)
  {
  }

  lemma EndWorkOnly(s: State, t: nat)
    requires t < |s.tasks|
    ensures Only(s, EndWork(s, t), t)
  {
    hide NextTurn;
    NextTurnOnly(s.(isSleep := Some(true)), t);
  }

  lemma ProceedOnly(s: State, t: nat)
    requires t < |s.tasks| && InWork(s.tasks[t].at)
    ensures Only(s, Proceed(s, t), t)
  {
    hide EndWork;
    var y := s.tally;
    EndWorkOnly(s.(tally := y.(done := y.done + 1)), t);
    EndWorkOnly(s.(tally := y.(handed := y.handed + 1)), t);
  }

  lemma WakeOnly(s: State, t: nat)
    requires t < |s.tasks|
    ensures Only(s, Wake(s, t), t)
  {
    hide NextTurn, BeginWork;
    NextTurnOnly(s, t);
    NextTurnOnly(s.(isSleep := Some(true)), t);
  }

  // ---------- What it counts ----------

  /** The counts after a step from one point to another. */
  ghost function Counted(y: Tally, p: Point, q: Point, how: Outcome, requested: bool): Tally {
    Tally(
      y.run + If(q == Running),
      y.done + If(p == Running && how == Returns),
      y.error + If(InWork(p) && how == Raises),
      y.taken + If(p == Input && how == Returns),
      y.handed + If(p == Output && how == Returns),
      y.failedInput + If(p == Input && how == Raises),
      y.failedRun + If(p == Running && how == Raises),
      y.failedOutput + If(p == Output && how == Raises),
      y.cancelledRun + If(p == Running && how == Cancels),
      y.cancelledOutput + If(p == Output && how == Cancels),
      y.cut + If(requested && InWork(p)))
  }

  /** The runs begun when a turn begins. */
  ghost predicate Begins(s: State, u: State, t: nat) {
    t < |s.tasks| && |u.tasks| == |s.tasks| &&
    u.tally == s.tally.(run := s.tally.run + If(u.tasks[t].at == Running))
  }

  lemma NextTurnBegins(s: State, t: nat)
    requires t < |s.tasks|
    ensures Begins(s, NextTurn(s, t), t) && Begins(s, BeginWork(s, t), t)
  {
  }

  lemma EndWorkBegins(s: State, t: nat)
    requires t < |s.tasks|
    ensures Begins(s, EndWork(s, t), t)
  {
    hide NextTurn;
    NextTurnBegins(s.(isSleep := Some(true)), t);
  }

  lemma ProceedCounts(s: State, t: nat)
    requires t < |s.tasks| && InWork(s.tasks[t].at)
    ensures |Proceed(s, t).tasks| == |s.tasks|
    ensures Proceed(s, t).tally == Counted(s.tally, s.tasks[t].at, Proceed(s, t).tasks[t].at, Returns, false)
  {
    hide EndWork;
    var y := s.tally;
    EndWorkBegins(s.(tally := y.(done := y.done + 1)), t);
    EndWorkBegins(s.(tally := y.(handed := y.handed + 1)), t);
  }

  lemma WakeCounts(s: State, t: nat)
    requires t < |s.tasks| && !InWork(s.tasks[t].at)
    ensures Begins(s, Wake(s, t), t)
  {
    hide NextTurn, BeginWork;
    NextTurnBegins(s, t);
    NextTurnBegins(s.(isSleep := Some(true)), t);
  }

  /** Exactly what each step adds to the counters: a run when the runner gets to `run`, and at
      each await inside `work` the count that goes with how it ends. */
  lemma StepCounts(s: State, t: nat, how: Outcome)
    requires Enabled(s, TaskResumes(t, how))
    ensures var u := Step(s, TaskResumes(t, how));
            && |u.tasks| == |s.tasks|
            && u.tally == Counted(s.tally, s.tasks[t].at, u.tasks[t].at, how, Requested(s.tasks[t]))
  {
    hide EndWork, Proceed, Wake, Requested;
    var s1, p := Surface(s, t), s.tasks[t].at;
    if how == Cancels {
    } else if !InWork(p) {
      WakeCounts(s1, t);
    } else if how == Raises {
      EndWorkBegins(s1.(tally := CountFailure(s1.tally, p)), t);
    } else {
      ProceedCounts(s1, t);
    }
  }

  // ---------- Starting ----------

  /** After `start` a runner runs: the one there was, or a new one that nobody has cancelled. */
  lemma StartStarts(s: State)
    requires Reachable(s)
    ensures IsRunning(Start(s)) && Start(s).stopping == s.stopping
    ensures Start(s).isSleep == s.isSleep && Start(s).persist == s.persist && Start(s).tally == s.tally
    ensures if IsRunning(s) then Start(s).tasks == s.tasks && Start(s).future == s.future
            else Start(s).tasks == s.tasks + [Task(Created, false, false, false)] &&
                 Enabled(Start(s), TaskResumes(|s.tasks|, Returns))
  {
    ReachableInv(s);
  }

  /** What a runner goes on for: neither a `stop` nor the cancellation of one, nor an operation
      that ends as if cancelled. */
  ghost predicate Undisturbed(es: seq<Event>) {
    forall e :: e in es ==> !e.CallStop? && !e.CancelStop? && !(e.TaskResumes? && e.how == Cancels)
  }

  ghost predicate GoesOn(s: State) {
    IsRunning(s) && s.persist && !Requested(s.tasks[s.future.value])
  }

  lemma StepGoesOn(s: State, e: Event)
    requires WorkerInv(s) && GoesOn(s) && Enabled(s, e) && Undisturbed([e])
    ensures GoesOn(Step(s, e)) && Step(s, e).future == s.future
  {
    hide Accounted, SleepIsTrue, Resume;
    assert e in [e];
    if e.TaskResumes? { RunnerFollows(s, e.task, e.how); }
  }

  /** A persistent runner that nobody stops runs for ever, however its operations fail. */
  lemma {:induction false} PersistentRunnerGoesOn(s: State, es: seq<Event>)
    requires WorkerInv(s) && GoesOn(s) && Feasible(s, es) && Undisturbed(es)
    ensures GoesOn(Run(s, es)) && Run(s, es).future == s.future
    decreases |es|
  {
    hide GoesOn, WorkerInv, Step;
    if es != [] {
      assert es[0] in es && forall e :: e in es[1..] ==> e in es;
      StepGoesOn(s, es[0]);
      StepKeepsInv(s, es[0]);
      PersistentRunnerGoesOn(Step(s, es[0]), es[1..]);
    }
  }

  // ---------- Stopping ----------

  /** The runner that `stop` finds is cancelled. */
  ghost predicate Cancelling(s: State, force: bool) {
    IsRunning(s) && (force || s.isSleep == Some(true))
  }

  /** No event of a run is a step of a task. */
  ghost predicate Leaves(es: seq<Event>, t: nat) {
    forall e :: e in es ==> !(e.TaskResumes? && e.task == t)
  }

  /** A task stays where it is, and so do the requests on it. */
  ghost predicate Stays(s: State, u: State, t: nat) {
    && t < |s.tasks| && t < |u.tasks| && u.tasks[t].at == s.tasks[t].at
    && (Requested(s.tasks[t]) ==> Requested(u.tasks[t]))
  }

  lemma StepStays(s: State, e: Event, t: nat)
    requires t < |s.tasks| && Enabled(s, e) && Leaves([e], t)
    ensures Stays(s, Step(s, e), t)
  {
    hide Resume;
    assert e in [e];
    if e.TaskResumes? { RunnerFollows(s, e.task, e.how); }
  }

  lemma {:induction false} RunStays(s: State, es: seq<Event>, t: nat)
    requires t < |s.tasks| && Feasible(s, es) && Leaves(es, t)
    ensures Stays(s, Run(s, es), t)
    decreases |es|
  {
    hide Step;
    if es != [] {
      assert es[0] in es && forall e :: e in es[1..] ==> e in es;
      StepStays(s, es[0], t);
      RunStays(Step(s, es[0]), es[1..], t);
    }
  }

  /** What `stop` does at once: it cancels the runner, or turns `_persist` off, or has nothing
      to stop. */
  lemma StopRequests(s: State, force: bool)
    requires Reachable(s)
    ensures Cancelling(s, force) ==>
              Requested(Stop(s, force).tasks[s.future.value]) && Stop(s, force).persist == s.persist
    ensures Cancelling(s, force) && !force ==> !InWork(s.tasks[s.future.value].at)
    ensures IsRunning(s) && !Cancelling(s, force) ==> Stop(s, force).tasks == s.tasks && !Stop(s, force).persist
    ensures IsRunning(s) ==>
              Stop(s, force).stopping == s.stopping + [s.future.value] && Stop(s, force).isSleep == s.isSleep
    ensures !IsRunning(s) ==> Stop(s, force) == s.(isSleep := None)
  {
    ReachableInv(s);
  }

  /** Whatever happens first, the next step of a runner whose cancellation is requested ends it
      unless it is at work; there the cancellation arrives too, and ends it if it comes through. */
  ghost predicate Comes(s: State, t: nat, es: seq<Event>, how: Outcome)
    requires Feasible(s, es)
  {
    var v := Run(s, es);
    Enabled(v, TaskResumes(t, how)) && t < |s.tasks| ==>
      var u := Step(v, TaskResumes(t, how));
      && Enabled(v, TaskResumes(t, Cancels))
      && (!InWork(s.tasks[t].at) ==> how == Cancels && u.tally == v.tally)
      && (InWork(s.tasks[t].at) ==> u.tally.cut == v.tally.cut + 1)
      && (how == Cancels ==> At(u, t, Ended))
  }

  lemma RequestComes(s: State, t: nat, es: seq<Event>, how: Outcome)
    requires t < |s.tasks| && Requested(s.tasks[t]) && Feasible(s, es) && Leaves(es, t)
    ensures Comes(s, t, es, how)
  {
    hide Resume, Feasible, Run;
    var v := Run(s, es);
    RunStays(s, es, t);
    if Enabled(v, TaskResumes(t, how)) {
      RunnerFollows(v, t, how);
      StepCounts(v, t, how);
    }
  }

  /** So it is for the runner that a `stop` has cancelled ... */
  lemma StopComes(s: State, force: bool, es: seq<Event>, how: Outcome)
    requires Reachable(s) && Cancelling(s, force)
    requires Feasible(Stop(s, force), es) && Leaves(es, s.future.value)
    ensures Comes(Stop(s, force), s.future.value, es, how)
    ensures Stop(s, force).tasks[s.future.value].at == s.tasks[s.future.value].at
  {
    hide Comes, Feasible, Reachable;
    StopRequests(s, force);
    RequestComes(Stop(s, force), s.future.value, es, how);
  }

  /** ... and for the one a `stop` waits for that is itself cancelled, which still waits then. */
  lemma CancelledStopComes(s: State, i: nat, es: seq<Event>, how: Outcome)
    requires i < |s.stopping| && s.stopping[i] < |s.tasks| && s.tasks[s.stopping[i]].at != Ended
    requires Feasible(Step(s, CancelStop(i)), es) && Leaves(es, s.stopping[i])
    ensures Comes(Step(s, CancelStop(i)), s.stopping[i], es, how)
    ensures Step(s, CancelStop(i)).stopping == s.stopping
  {
    hide Comes, Feasible;
    RequestComes(Step(s, CancelStop(i)), s.stopping[i], es, how);
  }

  /** A `stop` returns no sooner than its runner has ended. */
  lemma StopReturnsStopped(s: State, i: nat)
    requires Enabled(s, StopWakes(i))
    ensures var u := Step(s, StopWakes(i));
            && u.isSleep == None && At(u, s.stopping[i], Ended)
            && (s.future == Some(s.stopping[i]) ==> !IsRunning(u))
            && multiset(u.stopping) == multiset(s.stopping) - multiset{s.stopping[i]}
  {
    var at := s.stopping;
    assert at == at[..i] + [at[i]] + at[i + 1..];
  }

  /** The shortest course of a `stop` that cancels: it returns, and the worker is neither running
      nor asleep. */
  lemma StopStops(s: State, force: bool)
    requires Reachable(s) && Cancelling(s, force)
    ensures var t := s.future.value;
            var es := [CallStop(force), TaskResumes(t, Cancels), StopWakes(|s.stopping|)];
            && Feasible(s, es)
            && var u := Run(s, es);
               && !IsRunning(u) && u.isSleep == None && u.stopping == s.stopping
               && u.tally.cut == s.tally.cut + If(InWork(s.tasks[t].at))
  {
    hide Resume, Reachable, Feasible, Run;
    var t, n := s.future.value, |s.stopping|;
    var s1 := Stop(s, force);
    StopRequests(s, force);
    RunnerFollows(s1, t, Cancels);
    StepCounts(s1, t, Cancels);
    var s2 := Step(s1, TaskResumes(t, Cancels));
    assert s2.stopping[..n] + s2.stopping[n + 1..] == s.stopping;
    var c, d := TaskResumes(t, Cancels), StopWakes(n);
    assert [d] + [] == [d] && [c] + [d] == [c, d] && [CallStop(force)] + [c, d] == [CallStop(force), c, d];
    RunsOn(StopReturns(s2, n), []);
    OneMore(s2, d, []);
    OneMore(s1, c, [d]);
    OneMore(s, CallStop(force), [c, d]);
  }

  /** `_persist` stays off. */
  lemma {:induction false} StaysOff(s: State, es: seq<Event>)
    requires Feasible(s, es) && !s.persist
    ensures !Run(s, es).persist
    decreases |es|
  {
    hide Resume;
    if es != [] {
      if es[0].TaskResumes? { RunnerFollows(s, es[0].task, es[0].how); }
      StaysOff(Step(s, es[0]), es[1..]);
    }
  }

  /** A `stop` that lets the runner finish: at whatever later time its `work` is over, it ends. */
  lemma BusyStopEnds(s: State, es: seq<Event>, t: nat, how: Outcome)
    requires Reachable(s) && IsRunning(s) && !Cancelling(s, false)
    requires Feasible(Stop(s, false), es)
    requires Enabled(Run(Stop(s, false), es), TaskResumes(t, how))
    ensures var v := Run(Stop(s, false), es);
            var p := v.tasks[t].at;
            InWork(p) && (how == Returns ==> p == Output || (p == Running && !s.config.output)) ==>
              At(Step(v, TaskResumes(t, how)), t, Ended)
  {
    hide Resume, Feasible, Run;
    ReachableInv(s);
    StepKeepsInv(s, CallStop(false));
    StaysOff(Stop(s, false), es);
    RunKeepsConfig(Stop(s, false), es);
    RunnerFollows(Run(Stop(s, false), es), t, how);
  }
}
