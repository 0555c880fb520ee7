/** `Worker` as it is written. The coroutines are cut at their awaits: each method runs from
    one await to the next, and is proved to do what `WorkerSpec` says. */
module Workers {
  import opened Wrappers
  import opened WorkerSpec

  class Worker {
    const config: Config
    var persist: bool
    var isSleep: Option<bool>
    var future: Option<nat>
    var tasks: seq<Task>
    var stopping: seq<nat>
    var run: nat
    var done: nat
    var error: nat
    ghost var fate: Tally

    ghost function View(): State
      reads this
    {
      State(config, persist, isSleep, future, tasks, stopping,
            fate.(run := run, done := done, error := error))
    }

    constructor (config: Config, persist: bool)
      ensures View() == Initial(config, persist)
    {
      this.config := config;
      this.persist := persist;
      isSleep, future := None, None;
      tasks, stopping := [], [];
      run, done, error := 0, 0, 0;
      fate := Tally(0, 0, 0, 0, 0, 0, 0, 0, 0, 0, 0);
    }

    /** `running` */
    method CheckRunning() returns (r: bool)
      ensures r == IsRunning(View())
    {
      match future {
        case None => return false;
        case Some(f) => return f < |tasks| && tasks[f].at != Ended;
      }
    }

    /** `start` */
    method StartRunner()
      modifies this
      ensures View() == Start(old(View()))
    {
      var running := CheckRunning();
      if !running {
        future := Some(|tasks|);
        tasks := tasks + [Task(Created, false, false, false)];
      }
    }

    /** `stop` until it returns or awaits the runner. */
    method StopRunner(force: bool)
      modifies this
      ensures View() == Stop(old(View()), force)
    {
      var running := CheckRunning();
      if !running {
        isSleep := None;
        return;
      }
      var f := future.value;
      if force || isSleep == Some(true) {
        tasks := tasks[f := if force then tasks[f].(forced := true) else tasks[f].(graceful := true)];
      } else {
        persist := false;
      }
      stopping := stopping + [f];
    }

    /** The rest of `stop`. */
    method FinishStop(i: nat)
      requires Enabled(View(), StopWakes(i))
      modifies this
      ensures View() == Step(old(View()), StopWakes(i))
    {
      stopping := stopping[..i] + stopping[i + 1..];
      isSleep := None;
    }

    /** The task of a suspended `stop` is cancelled. */
    method CancelStopCall(i: nat)
      requires Enabled(View(), CancelStop(i))
      modifies this`tasks
      ensures View() == Step(old(View()), CancelStop(i))
    {
      var t := stopping[i];
      if t < |tasks| && tasks[t].at != Ended {
        tasks := tasks[t := tasks[t].(relayed := true)];
      }
    }

    method Suspend(t: nat, p: Point)
      requires t < |tasks|
      modifies this`tasks
      ensures View() == GoTo(old(View()), t, p)
    {
      tasks := tasks[t := Task(p, false, false, false)];
    }

    /** `work` until its first await. */
    method Work(t: nat)
      requires t < |tasks|
      modifies this
      ensures View() == BeginWork(old(View()), t)
    {
      isSleep := Some(false);
      if config.input {
        Suspend(t, Input);
      } else {
        run := run + 1;
        Suspend(t, Running);
      }
    }

    /** The loop of `runner` from its head. */
    method Loop(t: nat)
      requires t < |tasks|
      modifies this
      ensures View() == NextTurn(old(View()), t)
    {
      if config.crontab {
        Suspend(t, Cron);
      } else {
        Work(t);
      }
    }

    /** The loop of `runner` after `work`. */
    method AfterWork(t: nat)
      requires t < |tasks|
      modifies this
      ensures View() == EndWork(old(View()), t)
    {
      isSleep := Some(true);
      if !persist {
        Suspend(t, Ended);
        return;
      }
      if config.sleep {
        Suspend(t, Pause);
      } else {
        Loop(t);
      }
    }

    /** `work` from one of its awaits. */
    method ContinueWork(t: nat)
      requires t < |tasks| && InWork(tasks[t].at)
      modifies this
      ensures View() == Proceed(old(View()), t)
    {
      if tasks[t].at == Input {
        fate := fate.(taken := fate.taken + 1);
        run := run + 1;
        Suspend(t, Running);
      } else if tasks[t].at == Running {
        done := done + 1;
        if config.output {
          Suspend(t, Output);
        } else {
          AfterWork(t);
        }
      } else {
        fate := fate.(handed := fate.handed + 1);
        AfterWork(t);
      }
    }

    /** `runner` from one of its own awaits. */
    method ContinueRunner(t: nat)
      requires t < |tasks|
      modifies this
      ensures View() == Wake(old(View()), t)
    {
      if tasks[t].at == Created {
        isSleep := Some(true);
        if config.sleepStart {
          Suspend(t, SleepStart);
        } else {
          Loop(t);
        }
      } else if tasks[t].at == Cron {
        Work(t);
      } else {
        Loop(t);
      }
    }

    /** History only: a requested cancellation has reached a runner inside `work`. */
    ghost method NoteCut(t: nat)
      requires t < |tasks|
      modifies this`fate
      ensures View() == Surface(old(View()), t)
    {
      if Requested(tasks[t]) && InWork(tasks[t].at) {
        fate := fate.(cut := fate.cut + 1);
      }
    }

    /** A runner goes on from its await, which ended in some way. */
    method ResumeRunner(t: nat, how: Outcome)
      requires Enabled(View(), TaskResumes(t, how))
      modifies this
      ensures View() == Step(old(View()), TaskResumes(t, how))
    {
      var p := tasks[t].at;
      NoteCut(t);
      match how {
        case Cancels =>
          fate := CountCancellation(fate, p);
          Suspend(t, Ended);
        case Raises =>
          error := error + 1;
          fate := CountFailure(fate, p);
          AfterWork(t);
        case Returns =>
          if InWork(p) {
            ContinueWork(t);
          } else {
            ContinueRunner(t);
          }
      }
    }
  }
}
