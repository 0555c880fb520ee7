/** What a `get` that has to wait is promised, over whole runs. */
module QueuePromises {
  import opened Wrappers
  import opened QueueSpec
  import opened QueueFutures
  import opened QueueRuns

  /** A call of `get` that waits: its future, the form of the answer, its deadline, and whether
      its task has been cancelled. */
  datatype Call = Call(future: nat, withScore: bool, deadline: Option<Time>, cancelled: bool)

  ghost predicate Ringing(timeouts: map<nat, Time>, c: Call) {
    if c.deadline.Some? then c.future in timeouts && timeouts[c.future] == c.deadline.value
    else c.future !in timeouts
  }

  /** The call is in line and its timeout is pending; or it has an answer in the form asked
      for; or it has timed out, and not before its deadline; or it was cancelled. */
  ghost predicate Kept(w: Waiters, timeouts: map<nat, Time>, now: Time, c: Call) {
    && c.future in w.getFutures
    && match w.getFutures[c.future]
       case Pending => Getter(c.withScore, c.future) in w.getters && Ringing(timeouts, c)
       case Got(_, score) => score.Some? <==> c.withScore
       case TimedOut => c.deadline.Some? && c.deadline.value <= now
       case Cancelled => c.cancelled
       case Released => false
  }

  ghost predicate Keeps(s: State, c: Call) {
    Kept(s.waiters, s.timeouts, s.now, c)
  }

  lemma {:induction false} SendKeeps(w: Waiters, item: Item, full: bool, timeouts: map<nat, Time>, now: Time, c: Call)
    requires GettersInv(w) && Kept(w, timeouts, now, c)
    ensures Kept(Send(w, item, full, now).0, timeouts, now, c)
    decreases |w.getters|
  {
    if w.getters != [] {
      var g := w.getters[0];
      var rest := w.(getters := w.getters[1..]);
      assert forall h :: h in w.getters <==> h == g || h in rest.getters;
      if !IsPending(w.getFutures, g.future) {
        DropSettled(w);
        SendKeeps(rest, item, full, timeouts, now, c);
      } else if g.future == c.future && w.getFutures[c.future] == Pending {
        SameGetter(w, g, Getter(c.withScore, c.future));
      }
    }
  }

  lemma SameGetter(w: Waiters, g: Getter, h: Getter)
    requires GettersInv(w) && g in w.getters && h in w.getters && g.future == h.future
    ensures g == h
  {
    var i :| 0 <= i < |w.getters| && w.getters[i] == g;
    var j :| 0 <= j < |w.getters| && w.getters[j] == h;
    assert i == j;
  }

  lemma {:induction false} OnTimeKeeps(s: State, c: Call)
    requires FuturesInv(s) && Keeps(s, c)
    ensures Keeps(OnTime(s), c)
    decreases |s.waiters.getters|
  {
    hide Kept, WaitersInv;
    if s.waiters.getters != [] {
      var (s1, popped) := PopFrom(s);
      if popped.Some? && popped.value.timestamp <= s1.now {
        var full := Full(s1.config, s1.heap);
        SendInvAndPromise(s1, popped.value, full, c);
        var (s2, sent) := SendFrom(s1, popped.value);
        if sent { OnTimeKeeps(s2, c); }
      }
    }
  }

  lemma SendInvAndPromise(s: State, item: Item, full: bool, c: Call)
    requires FuturesInv(s) && Keeps(s, c) && item.timestamp <= s.now
    ensures WaitersInv(Send(s.waiters, item, full, s.now).0, s.nextId, s.now)
    ensures Kept(Send(s.waiters, item, full, s.now).0, s.timeouts, s.now, c)
  {
    SendKeepsInv(s.waiters, item, full, s.nextId, s.now);
    SendKeeps(s.waiters, item, full, s.timeouts, s.now, c);
  }

  lemma PutKeeps(s: State, value: Value, score: Option<Time>, c: Call)
    requires FuturesInv(s) && Keeps(s, c)
    ensures Keeps(Put(s, value, score), c)
  {
    var (s1, item) := Arrive(s, value, ScoreOf(s, score));
    if s1.waiters.getters != [] && item.timestamp < s1.now {
      SendKeeps(s1.waiters, item, Full(s1.config, s1.heap), s1.timeouts, s1.now, c);
    }
  }

  lemma WaitKeeps(s: State, withScore: bool, timeout: Option<Time>, c: Call)
    requires Keeps(s, c) && c.future < s.nextId
    ensures Keeps(Wait(s, withScore, timeout), c)
  {
    var t := Wait(s, withScore, timeout);
    assert forall g :: g in s.waiters.getters ==> g in t.waiters.getters;
  }

  lemma GetKeeps(s: State, withScore: bool, timeout: Option<Time>, c: Call)
    requires FuturesInv(s) && Keeps(s, c)
    ensures Keeps(Get(s, withScore, timeout).0, c)
  {
    assert c.future < s.nextId;
    hide WaitersInv, Pop, PutItem;
    var (s1, popped) := PopFrom(s);
    if popped == None {
      WaitKeeps(s1, withScore, timeout, c);
    } else if popped.value.timestamp > s1.now {
      WaitKeeps(Schedule(s1, popped.value), withScore, timeout, c);
    }
  }

  /** The call after an event. */
  function After(c: Call, e: Event): Call {
    c.(cancelled := c.cancelled || e == CancelGetter(c.future))
  }

  function AfterAll(c: Call, es: seq<Event>): Call {
    c.(cancelled := c.cancelled || CancelGetter(c.future) in es)
  }

  lemma StepKeeps(s: State, e: Event, c: Call)
    requires FuturesInv(s) && Keeps(s, c) && Enabled(s, e)
    ensures Keeps(Step(s, e), After(c, e))
  {
    match e
    case CallPut(value, score) => PutKeeps(s, value, score, c);
    case CallGet(withScore, timeout) => GetKeeps(s, withScore, timeout, c);
    case FireTimer(i) => OnTimeKeeps(s.(timers := Without(s.timers, i)), c);
    case _ =>
  }

  lemma {:induction false} RunKeeps(s: State, es: seq<Event>, c: Call)
    requires QueueInv(s) && Keeps(s, c) && Feasible(s, es)
    ensures Keeps(Run(s, es), AfterAll(c, es))
    decreases |es|
  {
    if es != [] {
      StepKeepsInv(s, es[0]);
      StepKeeps(s, es[0], c);
      RunKeeps(Step(s, es[0]), es[1..], After(c, es[0]));
      assert es == [es[0]] + es[1..];
      assert AfterAll(After(c, es[0]), es[1..]) == AfterAll(c, es);
    }
  }

  /** Timeouts belong to futures handed out before. */
  ghost predicate TimeoutIds(s: State) {
    forall f :: f in s.timeouts ==> f < s.nextId
  }

  lemma {:induction false} OnTimeKeepsTimeouts(s: State)
    ensures OnTime(s).timeouts == s.timeouts && s.nextId <= OnTime(s).nextId
    decreases |s.waiters.getters|
  {
    if s.waiters.getters != [] {
      var (s1, popped) := PopFrom(s);
      if popped.Some? && popped.value.timestamp <= s1.now {
        var (s2, sent) := SendFrom(s1, popped.value);
        if sent { OnTimeKeepsTimeouts(s2); }
      }
    }
  }

  lemma StepKeepsTimeoutIds(s: State, e: Event)
    requires TimeoutIds(s) && Enabled(s, e)
    ensures TimeoutIds(Step(s, e))
  {
    if e.FireTimer? { OnTimeKeepsTimeouts(s.(timers := Without(s.timers, e.index))); }
  }

  lemma {:induction false} RunKeepsTimeoutIds(s: State, es: seq<Event>)
    requires TimeoutIds(s) && Feasible(s, es)
    ensures TimeoutIds(Run(s, es))
    decreases |es|
  {
    hide TimeoutIds, Step, Enabled;
    if es != [] {
      StepKeepsTimeoutIds(s, es[0]);
      RunKeepsTimeoutIds(Step(s, es[0]), es[1..]);
    }
  }

  ghost predicate NoTimeoutDue(s: State) {
    forall f :: f in s.timeouts ==> s.now < s.timeouts[f]
  }

  function DeadlineOf(s: State, timeout: Option<Time>): Option<Time> {
    if timeout.Some? && timeout.value != 0.0 then Some(s.now + timeout.value) else None
  }

  lemma GetPromises(s: State, withScore: bool, timeout: Option<Time>)
    requires TimeoutIds(s) && Get(s, withScore, timeout).1 == None
    ensures var t := Get(s, withScore, timeout).0;
            t.nextId > 0 && Keeps(t, Call(t.nextId - 1, withScore, DeadlineOf(s, timeout), false))
  {
    var t := Get(s, withScore, timeout).0;
    var g := t.waiters.getters[|t.waiters.getters| - 1];
    assert g == Getter(withScore, t.nextId - 1) && g in t.waiters.getters;
  }

  lemma ReachableTimeoutIds(s: State)
    requires Reachable(s)
    ensures TimeoutIds(s)
  {
    hide Run, Feasible;
    var config, now, es :| Feasible(Initial(config, now), es) && s == Run(Initial(config, now), es);
    RunKeepsTimeoutIds(Initial(config, now), es);
  }

  lemma KeptMeansInTime(s: State, c: Call)
    requires Keeps(s, c) && NoTimeoutDue(s) && IsPending(s.waiters.getFutures, c.future) && c.deadline.Some?
    ensures s.now < c.deadline.value
  {
  }

  /** A `get` that waits is settled, over any run that follows, only by an answer in the form
      asked for, by its own timeout and not too early, or by a cancellation; and once no
      timeout callback is due, it does not wait past its deadline. */
  lemma GetIsAnswered(s: State, withScore: bool, timeout: Option<Time>, es: seq<Event>)
    requires Reachable(s) && Get(s, withScore, timeout).1 == None
    requires Feasible(Get(s, withScore, timeout).0, es)
    ensures var asked := Get(s, withScore, timeout).0;
            asked.nextId > 0 &&
            var c, u := Call(asked.nextId - 1, withScore, DeadlineOf(s, timeout), false), Run(asked, es);
            && Keeps(u, AfterAll(c, es))
            && (c.deadline.Some? && IsPending(u.waiters.getFutures, c.future) && NoTimeoutDue(u) ==>
                  u.now < c.deadline.value)
  {
    hide Reachable, Get, Run, Feasible, QueueInv, Kept, NoTimeoutDue, DeadlineOf, TimeoutIds;
    ReachableTimeoutIds(s);
    ReachableInv(s);
    var asked := Get(s, withScore, timeout).0;
    StepKeepsInv(s, CallGet(withScore, timeout));
    GetPromises(s, withScore, timeout);
    var c := Call(asked.nextId - 1, withScore, DeadlineOf(s, timeout), false);
    RunKeeps(asked, es, c);
    var u := Run(asked, es);
    if c.deadline.Some? && IsPending(u.waiters.getFutures, c.future) && NoTimeoutDue(u) {
      KeptMeansInTime(u, AfterAll(c, es));
    }
  }
}
