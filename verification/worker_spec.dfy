/** The worker life cycle: a runner coroutine cut at its awaits, interleaved with any number
    of `start` and `stop` calls. */
module WorkerSpec {
  import opened Wrappers

  /** Where a runner task is suspended. Input, Running and Output are inside `work`. */
  datatype Point = Created | SleepStart | Cron | Input | Running | Output | Pause | Ended

  /** A runner task; `forced` and `graceful` say which kinds of `stop` have requested its
      cancellation since it was last resumed, and `relayed` that the cancellation of a `stop`
      waiting for it has been passed on to it. */
  datatype Task = Task(at: Point, forced: bool, graceful: bool, relayed: bool)

  /** How the awaited operation of a task ends. */
  datatype Outcome = Returns | Raises | Cancels

  datatype Config = Config(input: bool, output: bool, sleepStart: bool, crontab: bool, sleep: bool)

  /** `counter`, and what it does not tell apart: inputs taken, outputs handed over, failures
      and cancellations by the operation they hit, and requested cancellations that hit
      `work` at all. */
  datatype Tally = Tally(
    run: nat, done: nat, error: nat,
    taken: nat, handed: nat,
    failedInput: nat, failedRun: nat, failedOutput: nat,
    cancelledRun: nat, cancelledOutput: nat, cut: nat)

  datatype State = State(
    config: Config,
    persist: bool,
    isSleep: Option<bool>,
    future: Option<nat>,
    tasks: seq<Task>,
    stopping: seq<nat>,          // the tasks that suspended `stop` calls wait for
    tally: Tally)

  function Initial(config: Config, persist: bool): State {
    State(config, persist, None, None, [], [], Tally(0, 0, 0, 0, 0, 0, 0, 0, 0, 0, 0))
  }

  predicate InWork(p: Point) {
    p == Input || p == Running || p == Output
  }

  /** `running` */
  predicate IsRunning(s: State) {
    s.future.Some? && s.future.value < |s.tasks| && s.tasks[s.future.value].at != Ended
  }

  /** `start` */
  function Start(s: State): State {
    if IsRunning(s) then s
    else s.(tasks := s.tasks + [Task(Created, false, false, false)], future := Some(|s.tasks|))
  }

  /** `stop`, up to its await if it gets there. */
  function Stop(s: State, force: bool): State {
    if !IsRunning(s) then s.(isSleep := None)
    else
      var f := s.future.value;
      var waits := s.(stopping := s.stopping + [f]);
      if force then waits.(tasks := s.tasks[f := s.tasks[f].(forced := true)])
      else if s.isSleep == Some(true) then waits.(tasks := s.tasks[f := s.tasks[f].(graceful := true)])
      else waits.(persist := false)
  }

  /** The task a suspended `stop` waits for has ended. */
  function StopReturns(s: State, i: nat): State
    requires i < |s.stopping|
  {
    s.(stopping := s.stopping[..i] + s.stopping[i + 1..], isSleep := None)
  }

  /** The task in which a suspended `stop` runs is cancelled: awaiting the runner, it passes the
      cancellation on, and goes on waiting until the runner has ended. */
  function RelayCancel(s: State, i: nat): State
    requires i < |s.stopping|
  {
    var t := s.stopping[i];
    if t < |s.tasks| && s.tasks[t].at != Ended then s.(tasks := s.tasks[t := s.tasks[t].(relayed := true)]) else s
  }

  function GoTo(s: State, t: nat, p: Point): State
    requires t < |s.tasks|
  {
    s.(tasks := s.tasks[t := Task(p, false, false, false)])
  }

  /** `work`, up to its first await. */
  function BeginWork(s: State, t: nat): State
    requires t < |s.tasks|
  {
    var awake := s.(isSleep := Some(false));
    if s.config.input then GoTo(awake, t, Input)
    else GoTo(awake.(tally := s.tally.(run := s.tally.run + 1)), t, Running)
  }

  /** The head of the loop. */
  function NextTurn(s: State, t: nat): State
    requires t < |s.tasks|
  {
    if s.config.crontab then GoTo(s, t, Cron) else BeginWork(s, t)
  }

  /** What follows `work`, whether it succeeded or failed. */
  function EndWork(s: State, t: nat): State
    requires t < |s.tasks|
  {
    var asleep := s.(isSleep := Some(true));
    if !s.persist then GoTo(asleep, t, Ended)
    else if s.config.sleep then GoTo(asleep, t, Pause)
    else NextTurn(asleep, t)
  }

  /** Success of the operation awaited inside `work`. */
  function Proceed(s: State, t: nat): State
    requires t < |s.tasks| && InWork(s.tasks[t].at)
  {
    var y := s.tally;
    match s.tasks[t].at
    case Input => GoTo(s.(tally := y.(taken := y.taken + 1, run := y.run + 1)), t, Running)
    case Running =>
      var counted := s.(tally := y.(done := y.done + 1));
      if s.config.output then GoTo(counted, t, Output) else EndWork(counted, t)
    case _ => EndWork(s.(tally := y.(handed := y.handed + 1)), t)
  }

  function CountFailure(y: Tally, p: Point): Tally {
    y.(error := y.error + 1,
       failedInput := if p == Input then y.failedInput + 1 else y.failedInput,
       failedRun := if p == Running then y.failedRun + 1 else y.failedRun,
       failedOutput := if p == Output then y.failedOutput + 1 else y.failedOutput)
  }

  function CountCancellation(y: Tally, p: Point): Tally {
    y.(cancelledRun := if p == Running then y.cancelledRun + 1 else y.cancelledRun,
       cancelledOutput := if p == Output then y.cancelledOutput + 1 else y.cancelledOutput)
  }

  predicate Requested(task: Task) {
    task.forced || task.graceful || task.relayed
  }

  /** A requested cancellation surfaces where the task is. */
  function Surface(s: State, t: nat): State
    requires t < |s.tasks|
  {
    if Requested(s.tasks[t]) && InWork(s.tasks[t].at) then s.(tally := s.tally.(cut := s.tally.cut + 1)) else s
  }

  /** Going on from an await outside `work`. */
  function Wake(s: State, t: nat): State
    requires t < |s.tasks|
  {
    match s.tasks[t].at
    case Created =>
      var begun := s.(isSleep := Some(true));
      if s.config.sleepStart then GoTo(begun, t, SleepStart) else NextTurn(begun, t)
    case Cron => BeginWork(s, t)
    case _ => NextTurn(s, t)
  }

  /** A task goes on from its await. A runner that was cancelled before its first step never
      runs; afterwards a requested cancellation surfaces at the await, where the operations
      inside `work` may let it through, turn it into an error, or swallow it. */
  function Resume(s: State, t: nat, how: Outcome): State
    requires t < |s.tasks| && s.tasks[t].at != Ended
  {
    var p := s.tasks[t].at;
    var s1 := Surface(s, t);
    if how == Cancels then GoTo(s1.(tally := CountCancellation(s1.tally, p)), t, Ended)
    else if !InWork(p) then Wake(s1, t)
    else if how == Raises then EndWork(s1.(tally := CountFailure(s1.tally, p)), t)
    else Proceed(s1, t)
  }

  datatype Event =
    | CallStart
    | CallStop(force: bool)
    | StopWakes(index: nat)
    | CancelStop(index: nat)
    | TaskResumes(task: nat, how: Outcome)

  /** Outside `work` a task waits for its first step or for a timer, and is cancelled there
      exactly if that was requested. */
  predicate Enabled(s: State, e: Event) {
    match e
    case CallStart => true
    case CallStop(_) => true
    case StopWakes(i) => i < |s.stopping| && s.stopping[i] < |s.tasks| && s.tasks[s.stopping[i]].at == Ended
    case CancelStop(i) => i < |s.stopping|
    case TaskResumes(t, how) =>
      && t < |s.tasks| && s.tasks[t].at != Ended
      && (!InWork(s.tasks[t].at) ==>
            how == if Requested(s.tasks[t]) then Cancels else Returns)
  }

  function Step(s: State, e: Event): State
    requires Enabled(s, e)
  {
    match e
    case CallStart => Start(s)
    case CallStop(force) => Stop(s, force)
    case StopWakes(i) => StopReturns(s, i)
    case CancelStop(i) => RelayCancel(s, i)
    case TaskResumes(t, how) => Resume(s, t, how)
  }

  predicate Feasible(s: State, es: seq<Event>)
    decreases |es|
  {
    es == [] || (Enabled(s, es[0]) && Feasible(Step(s, es[0]), es[1..]))
  }

  function Run(s: State, es: seq<Event>): State
    requires Feasible(s, es)
    decreases |es|
  {
    if es == [] then s else Run(Step(s, es[0]), es[1..])
  }
}
